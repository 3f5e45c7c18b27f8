/** What the submission guard guarantees in every event sequence. */
module GuardTheorems {
  import opened Options
  import opened GuardModel

  // ---- what happened, told by events ----

  /** A trusted click on a submit control of the form or on an active plain button of it, or a trusted Enter without
      modifiers in one of its implicit submit controls. */
  predicate HumanGrant(e: Event, key: Key) {
    || (e.Click? && e.trusted && e.target == SubmitControl(key))
    || (e.Click? && e.trusted && e.target == ButtonControl(key) && e.active)
    || (e.Keydown? && e.trusted && e.plainEnter && e.form == Some(key))
  }

  /** The trusted submit events that were passed on a credit and are still being watched, oldest first. */
  function Watched(events: seq<Event>, n: nat): seq<Key>
    requires n <= |events|
  {
    if n == 0 then [] else
    var before, o := Watched(events, n - 1), OutcomeAt(events, n - 1);
    if o.Passed? && o.trusted then before + [o.key]
    else if events[n - 1].Microtask? && before != [] then before[1..]
    else before
  }

  /** The oldest watched submit event turns out to have been cancelled, and it was the form's. */
  predicate Cancelled(events: seq<Event>, i: nat, key: Key)
    requires i < |events|
  {
    events[i] == Microtask(true) && Watched(events, i) != [] && Watched(events, i)[0] == key
  }

  lemma StepMovesPending(s: State, e: Event)
    ensures var (s', o) := Step(s, e);
      s'.pending == if e.Submit? && o.Passed? && o.trusted then s.pending + [o.key]
                    else if e.Microtask? && s.pending != [] then s.pending[1..] else s.pending
    ensures Step(s, e).1.Passed? ==> e.Submit? && e.form == Some(Step(s, e).1.key)
    ensures Step(s, e).1.Restored? ==> e.Microtask? && s.pending != [] && Step(s, e).1.key == s.pending[0]
  {
  }

  lemma {:induction false} PendingIsWatched(events: seq<Event>, n: nat)
    requires n <= |events|
    ensures StateAt(events, n).pending == Watched(events, n)
  {
    if n > 0 {
      PendingIsWatched(events, n - 1);
      StepMovesPending(StateAt(events, n - 1), events[n - 1]);
    }
  }

  lemma StepRestoresExactly(s: State, e: Event, key: Key)
    ensures Step(s, e).1 == Restored(key) <==> e == Microtask(true) && s.pending != [] && s.pending[0] == key
  {
  }

  /** A credit is given back exactly when the oldest watched submit event was cancelled by the page. */
  lemma RestoredExactly(events: seq<Event>, i: nat, key: Key)
    requires i < |events|
    ensures OutcomeAt(events, i) == Restored(key) <==> Cancelled(events, i, key)
  {
    PendingIsWatched(events, i);
    StepRestoresExactly(StateAt(events, i), events[i], key);
  }

  lemma StepGrantsExactly(s: State, e: Event, key: Key)
    ensures Step(s, e).1 == Granted(key) || Step(s, e).1 == GrantedDelayed(key) <==> HumanGrant(e, key)
    ensures Step(s, e).1 == GrantedDelayed(key) <==> e == Click(true, ButtonControl(key), true)
  {
  }

  /** Credits are granted exactly by these events; a delayed one exactly by a click on an active plain button. */
  lemma GrantedExactly(events: seq<Event>, i: nat, key: Key)
    requires i < |events|
    ensures Grants(OutcomeAt(events, i), key) <==> HumanGrant(events[i], key)
    ensures OutcomeAt(events, i) == GrantedDelayed(key) <==> events[i] == Click(true, ButtonControl(key), true)
  {
    StepGrantsExactly(StateAt(events, i), events[i], key);
  }

  function HumanGrants(events: seq<Event>, n: nat, key: Key): nat
    requires n <= |events|
  {
    if n == 0 then 0 else HumanGrants(events, n - 1, key) + Bit(HumanGrant(events[n - 1], key))
  }

  function Cancellations(events: seq<Event>, n: nat, key: Key): nat
    requires n <= |events|
  {
    if n == 0 then 0 else Cancellations(events, n - 1, key) + Bit(Cancelled(events, n - 1, key))
  }

  lemma SameBits(events: seq<Event>, i: nat, key: Key)
    requires i < |events|
    ensures Bit(Grants(OutcomeAt(events, i), key)) == Bit(HumanGrant(events[i], key))
    ensures Bit(IsRestored(OutcomeAt(events, i), key)) == Bit(Cancelled(events, i, key))
  {
    GrantedExactly(events, i, key);
    RestoredExactly(events, i, key);
  }

  lemma {:induction false} GrantsAreEvents(events: seq<Event>, n: nat, key: Key)
    requires n <= |events|
    ensures Count(Grants, events, n, key) == HumanGrants(events, n, key)
  {
    if n > 0 {
      GrantsAreEvents(events, n - 1, key);
      SameBits(events, n - 1, key);
      CountStep(Grants, events, n, key);
    }
  }

  lemma {:induction false} RestoresAreEvents(events: seq<Event>, n: nat, key: Key)
    requires n <= |events|
    ensures Count(IsRestored, events, n, key) == Cancellations(events, n, key)
  {
    if n > 0 {
      RestoresAreEvents(events, n - 1, key);
      SameBits(events, n - 1, key);
      CountStep(IsRestored, events, n, key);
    }
  }

  // ---- counting ----

  predicate Grants(o: Outcome, key: Key) {
    o == Granted(key) || o == GrantedDelayed(key)
  }

  predicate Spends(o: Outcome, key: Key) {
    Through(o, key) || o == Passed(key, true) || o == Passed(key, false)
  }

  predicate Through(o: Outcome, key: Key) {
    o == LetThrough(key) || o == LetThroughDelayed(key)
  }

  /** How often `p` was the outcome for `key` among the first `n` events. */
  function Count(p: (Outcome, Key) -> bool, events: seq<Event>, n: nat, key: Key): nat
    requires n <= |events|
  {
    if n == 0 then 0 else
    Count(p, events, n - 1, key) + if p(OutcomeAt(events, n - 1), key) then 1 else 0
  }

  lemma CountStep(p: (Outcome, Key) -> bool, events: seq<Event>, n: nat, key: Key)
    requires 0 < n <= |events|
    ensures Count(p, events, n, key) == Count(p, events, n - 1, key) + Bit(p(OutcomeAt(events, n - 1), key))
  {
  }

  const IsRestored := (o: Outcome, key: Key) => o == Restored(key)
  const IsTrustedPass := (o: Outcome, key: Key) => o == Passed(key, true)
  const IsAdmitted := (o: Outcome, key: Key) => o == Admitted(key)

  function Bit(b: bool): nat { if b then 1 else 0 }

  // ---- credits ----

  function Held(s: State, key: Key): nat {
    Bit(key in s.authorized) + Bit(key in s.activation)
  }

  lemma StepConservesCredits(s: State, e: Event, key: Key)
    ensures var (s', o) := Step(s, e);
      Bit(Spends(o, key)) + Held(s', key) <= Bit(Grants(o, key)) + Bit(IsRestored(o, key)) + Held(s, key)
  {
  }

  /** Credits are conserved: a form's native calls and submit events passed on an authorization never
      outnumber the trusted grants and the restored credits, and what is left over covers the credits
      the form still holds. */
  lemma {:induction false} CreditsAreConserved(events: seq<Event>, n: nat, key: Key)
    requires n <= |events|
    ensures Count(Spends, events, n, key) + Held(StateAt(events, n), key)
      <= Count(Grants, events, n, key) + Count(IsRestored, events, n, key)
  {
    if n > 0 {
      CreditsAreConserved(events, n - 1, key);
      StepConservesCredits(StateAt(events, n - 1), events[n - 1], key);
      CountStep(Spends, events, n, key);
      CountStep(Grants, events, n, key);
      CountStep(IsRestored, events, n, key);
    }
  }

  lemma OneMorePending(pending: seq<Key>, last: Key, key: Key)
    ensures multiset(pending + [last])[key] == multiset(pending)[key] + Bit(last == key)
  {
  }

  lemma OneLessPending(pending: seq<Key>, key: Key)
    requires pending != []
    ensures multiset(pending)[key] == multiset(pending[1..])[key] + Bit(pending[0] == key)
  {
    assert pending == [pending[0]] + pending[1..];
  }

  lemma StepMatchesRestore(s: State, e: Event, key: Key)
    ensures var (s', o) := Step(s, e);
      Bit(IsRestored(o, key)) + multiset(s'.pending)[key] <= Bit(IsTrustedPass(o, key)) + multiset(s.pending)[key]
  {
    var o := Step(s, e).1;
    StepMovesPending(s, e);
    if e.Submit? && o.Passed? && o.trusted {
      OneMorePending(s.pending, o.key, key);
    } else if e.Microtask? && s.pending != [] {
      OneLessPending(s.pending, key);
    }
  }

  /** Each restored credit matches a distinct trusted submit event that spent one. */
  lemma {:induction false} RestoresMatchTrustedPasses(events: seq<Event>, n: nat, key: Key)
    requires n <= |events|
    ensures Count(IsRestored, events, n, key) + multiset(StateAt(events, n).pending)[key]
      <= Count(IsTrustedPass, events, n, key)
  {
    if n > 0 {
      RestoresMatchTrustedPasses(events, n - 1, key);
      StepMatchesRestore(StateAt(events, n - 1), events[n - 1], key);
      CountStep(IsRestored, events, n, key);
      CountStep(IsTrustedPass, events, n, key);
    }
  }

  lemma StepAdmits(s: State, e: Event, key: Key)
    requires key in s.allowed ==> key in s.calls
    ensures var (s', o) := Step(s, e);
      && Bit(IsAdmitted(o, key)) + Bit(key in s'.allowed) <= Bit(Through(o, key)) + Bit(key in s.allowed)
      && (key in s'.allowed ==> key in s'.calls)
  {
    if e.NativeEnd? && s.calls != [] {
      assert s.calls == s.calls[..|s.calls| - 1] + [s.calls[|s.calls| - 1]];
    }
  }

  /** Each native call that is let through admits at most one submit event, and none once no native
      call for the form is in progress. */
  lemma {:induction false} NativeCallsAdmitOneEventEach(events: seq<Event>, n: nat, key: Key)
    requires n <= |events|
    ensures var s := StateAt(events, n);
      && Count(IsAdmitted, events, n, key) + Bit(key in s.allowed) <= Count(Through, events, n, key)
      && (key in s.allowed ==> key in s.calls)
  {
    if n > 0 {
      NativeCallsAdmitOneEventEach(events, n - 1, key);
      StepAdmits(StateAt(events, n - 1), events[n - 1], key);
      CountStep(IsAdmitted, events, n, key);
      CountStep(Through, events, n, key);
    }
  }

  /** Submissions that reach the page's own handlers: native calls that were let through, and submit
      events passed on an authorization and not cancelled afterwards, need one human grant each. */
  lemma EverySubmissionNeedsAGrant(events: seq<Event>, n: nat, key: Key)
    requires n <= |events|
    ensures Count(Spends, events, n, key) - Cancellations(events, n, key) <= HumanGrants(events, n, key)
    ensures Count(Through, events, n, key) <= HumanGrants(events, n, key) + Cancellations(events, n, key)
    ensures Cancellations(events, n, key) <= Count(IsTrustedPass, events, n, key)
  {
    CreditsAreConserved(events, n, key);
    RestoresMatchTrustedPasses(events, n, key);
    ThroughSpends(events, n, key);
    GrantsAreEvents(events, n, key);
    RestoresAreEvents(events, n, key);
  }

  lemma {:induction false} ThroughSpends(events: seq<Event>, n: nat, key: Key)
    requires n <= |events|
    ensures Count(Through, events, n, key) <= Count(Spends, events, n, key)
  {
    if n > 0 {
      ThroughSpends(events, n - 1, key);
    }
  }

  // ---- delayed credits ----

  ghost predicate ActivationInv(s: State) {
    && (forall k, l :: k in s.activation && l in s.activation ==> k == l)
    && (forall k :: k in s.activation ==>
          s.activation[k] < |s.issued| && s.activation[k] in s.live && s.issued[s.activation[k]].key == k)
    && (forall t :: t in s.live ==> t < |s.issued| && s.now <= s.issued[t].deadline)
  }

  lemma DroppingKeepsActivationInv(s: State)
    requires ActivationInv(s)
    ensures ActivationInv(DropActivations(s))
  {
  }

  lemma SettingKeepsActivationInv(s: State, key: Key)
    requires ActivationInv(s) && s.activation == map[]
    ensures ActivationInv(SetActivation(s, key))
  {
    var s' := SetActivation(s, key);
    assert forall t :: 0 <= t < |s.issued| ==> s'.issued[t] == s.issued[t];
  }

  lemma FiringKeepsActivationInv(s: State, timer: nat)
    requires ActivationInv(s) && timer < |s.issued|
    ensures ActivationInv(FireTimer(s, timer))
  {
  }

  lemma NativeKeepsActivationInv(s: State, key: Key)
    requires ActivationInv(s)
    ensures ActivationInv(BeginNative(s, key).0)
  {
  }

  lemma StepKeepsActivationInv(s: State, e: Event)
    requires ActivationInv(s)
    ensures ActivationInv(Step(s, e).0)
  {
    match e
    case Click(trusted, target, active) =>
      DroppingKeepsActivationInv(s);
      if target.ButtonControl? {
        SettingKeepsActivationInv(DropActivations(s), target.key);
      }
    case Keydown(_, _, _) => DroppingKeepsActivationInv(s);
    case Interaction(_) => DroppingKeepsActivationInv(s);
    case TimerFires(timer) =>
      if timer < |s.issued| {
        FiringKeepsActivationInv(s, timer);
      }
    case NativeBegin(key) => NativeKeepsActivationInv(s, key);
    case _ =>
  }

  lemma {:induction false} ActivationHolds(events: seq<Event>, n: nat)
    requires n <= |events|
    ensures ActivationInv(StateAt(events, n))
  {
    if n > 0 {
      ActivationHolds(events, n - 1);
      StepKeepsActivationInv(StateAt(events, n - 1), events[n - 1]);
    }
  }

  /** There is never more than one delayed credit. */
  lemma AtMostOneDelayedCredit(events: seq<Event>, n: nat)
    requires n <= |events|
    ensures |StateAt(events, n).activation| <= 1
  {
    ActivationHolds(events, n);
    var activation := StateAt(events, n).activation;
    if k :| k in activation {
      assert activation.Keys == {k};
      assert |activation| == |activation.Keys|;
    }
  }

  /** A timer that was cancelled or superseded removes nothing when it fires after all. */
  lemma StaleTimerRemovesNothing(events: seq<Event>, n: nat, timer: nat)
    requires n <= |events| && timer !in StateAt(events, n).live
    ensures Step(StateAt(events, n), TimerFires(timer)).0.activation == StateAt(events, n).activation
  {
    ActivationHolds(events, n);
  }

  predicate TrustedInput(e: Event) {
    (e.Click? || e.Keydown? || e.Interaction?) && e.trusted
  }

  /** Neither a trusted interaction nor the spending of a delayed credit. */
  predicate Quiet(events: seq<Event>, m: nat)
    requires m < |events|
  {
    !TrustedInput(events[m]) && !OutcomeAt(events, m).LetThroughDelayed?
  }

  ghost function Deadline(s: State, key: Key): int
    requires ActivationInv(s) && key in s.activation
  {
    s.issued[s.activation[key]].deadline
  }

  lemma StepKeepsDelayedCredit(s: State, e: Event, key: Key)
    requires ActivationInv(s) && ActivationInv(Step(s, e).0) && key in Step(s, e).0.activation
    ensures var (s', o) := Step(s, e);
      || (o == GrantedDelayed(key) && Deadline(s', key) == s.now + ACTIVATION_AUTHORIZATION_MS)
      || (!TrustedInput(e) && !o.LetThroughDelayed? && key in s.activation && Deadline(s', key) == Deadline(s, key))
  {
  }

  /** The delayed credit of state `n` was granted at step `j` and left alone since. */
  ghost predicate GrantedAt(events: seq<Event>, n: nat, key: Key, deadline: int, j: nat)
    requires n <= |events|
  {
    && j < n && OutcomeAt(events, j) == GrantedDelayed(key)
    && deadline == StateAt(events, j).now + ACTIVATION_AUTHORIZATION_MS
    && forall m :: j < m < n ==> Quiet(events, m)
  }

  lemma QuietExtends(events: seq<Event>, n: nat, key: Key, deadline: int, j: nat)
    requires 0 < n <= |events| && GrantedAt(events, n - 1, key, deadline, j) && Quiet(events, n - 1)
    ensures GrantedAt(events, n, key, deadline, j)
  {
  }

  lemma {:induction false} DelayedCreditOrigin(events: seq<Event>, n: nat, key: Key)
    requires n <= |events| && ActivationInv(StateAt(events, n)) && key in StateAt(events, n).activation
    ensures exists j: nat :: GrantedAt(events, n, key, Deadline(StateAt(events, n), key), j)
  {
    var deadline := Deadline(StateAt(events, n), key);
    ActivationHolds(events, n - 1);
    var s := StateAt(events, n - 1);
    StepKeepsDelayedCredit(s, events[n - 1], key);
    if OutcomeAt(events, n - 1) == GrantedDelayed(key) && deadline == s.now + ACTIVATION_AUTHORIZATION_MS {
      assert GrantedAt(events, n, key, deadline, n - 1);
    } else {
      DelayedCreditOrigin(events, n - 1, key);
      var j: nat :| GrantedAt(events, n - 1, key, deadline, j);
      QuietExtends(events, n, key, deadline, j);
    }
  }

  /** A delayed credit is spent within 1000 ms of the click that granted it, with no trusted
      interaction in between, and only once. */
  lemma DelayedCreditIsSpentInTime(events: seq<Event>, i: nat, key: Key)
    requires i < |events| && OutcomeAt(events, i) == LetThroughDelayed(key)
    ensures exists j: nat :: GrantedInTime(events, i, key, j)
  {
    ActivationHolds(events, i);
    DelayedCreditOrigin(events, i, key);
    var deadline := Deadline(StateAt(events, i), key);
    var j: nat :| GrantedAt(events, i, key, deadline, j);
    assert GrantedInTime(events, i, key, j);
  }

  ghost predicate GrantedInTime(events: seq<Event>, i: nat, key: Key, j: nat)
    requires i < |events|
  {
    && j < i && OutcomeAt(events, j) == GrantedDelayed(key)
    && StateAt(events, i).now - StateAt(events, j).now <= 1000
    && forall m :: j < m < i ==> Quiet(events, m)
  }

  // ---- what is blocked, and what is not ----

  /** A trusted click on a submit control, a trusted plain Enter, or a cancelled submit event. */
  predicate Earns(events: seq<Event>, i: nat, key: Key)
    requires i < |events|
  {
    || (events[i].Click? && events[i].trusted && events[i].target == SubmitControl(key))
    || (events[i].Keydown? && events[i].trusted && events[i].plainEnter && events[i].form == Some(key))
    || Cancelled(events, i, key)
  }

  predicate Uses(o: Outcome, key: Key) {
    o == LetThrough(key) || o == Passed(key, true) || o == Passed(key, false)
  }

  /** The form has earned a credit since it last used one. */
  predicate CreditLeft(events: seq<Event>, n: nat, key: Key)
    requires n <= |events|
  {
    n > 0 &&
    (Earns(events, n - 1, key) || (!Uses(OutcomeAt(events, n - 1), key) && CreditLeft(events, n - 1, key)))
  }

  lemma StepMovesCredit(s: State, e: Event, key: Key)
    ensures var (s', o) := Step(s, e);
      key in s'.authorized <==>
        o == Granted(key) || o == Restored(key) || (!Uses(o, key) && key in s.authorized)
    ensures Step(s, e).1 == Granted(key) <==>
      (e.Click? && e.trusted && e.target == SubmitControl(key)) ||
      (e.Keydown? && e.trusted && e.plainEnter && e.form == Some(key))
  {
  }

  lemma CreditAt(events: seq<Event>, i: nat, key: Key)
    requires i < |events|
    ensures key in StateAt(events, i + 1).authorized <==>
      Earns(events, i, key) || (!Uses(OutcomeAt(events, i), key) && key in StateAt(events, i).authorized)
  {
    StepMovesCredit(StateAt(events, i), events[i], key);
    RestoredExactly(events, i, key);
  }

  lemma {:induction false} AuthorizedExactly(events: seq<Event>, n: nat, key: Key)
    requires n <= |events|
    ensures key in StateAt(events, n).authorized <==> CreditLeft(events, n, key)
  {
    if n > 0 {
      AuthorizedExactly(events, n - 1, key);
      CreditAt(events, n - 1, key);
    }
  }

  ghost predicate HasDelayed(s: State, key: Key, deadline: int) {
    ActivationInv(s) && key in s.activation && Deadline(s, key) == deadline
  }

  lemma GrantGivesDelayed(s: State, e: Event, key: Key)
    requires ActivationInv(s) && Step(s, e).1 == GrantedDelayed(key)
    ensures HasDelayed(Step(s, e).0, key, s.now + ACTIVATION_AUTHORIZATION_MS)
  {
    StepKeepsActivationInv(s, e);
  }

  lemma StepKeepsDelayed(s: State, e: Event, key: Key, deadline: int)
    requires HasDelayed(s, key, deadline) && Step(s, e).0.now < deadline
    requires !TrustedInput(e) && !Step(s, e).1.LetThroughDelayed?
    ensures HasDelayed(Step(s, e).0, key, deadline)
  {
    StepKeepsActivationInv(s, e);
  }

  lemma TimeGoesOn(s: State, e: Event)
    ensures s.now <= Step(s, e).0.now
  {
  }

  lemma GrantAt(events: seq<Event>, j: nat, key: Key)
    requires j < |events| && OutcomeAt(events, j) == GrantedDelayed(key)
    ensures HasDelayed(StateAt(events, j + 1), key, StateAt(events, j).now + ACTIVATION_AUTHORIZATION_MS)
  {
    ActivationHolds(events, j);
    GrantGivesDelayed(StateAt(events, j), events[j], key);
  }

  lemma QuietAt(events: seq<Event>, m: nat, key: Key, deadline: int)
    requires m < |events| && Quiet(events, m) && HasDelayed(StateAt(events, m), key, deadline)
    requires StateAt(events, m + 1).now < deadline
    ensures HasDelayed(StateAt(events, m + 1), key, deadline)
  {
    StepKeepsDelayed(StateAt(events, m), events[m], key, deadline);
  }

  lemma TimeAt(events: seq<Event>, m: nat)
    requires m < |events|
    ensures StateAt(events, m).now <= StateAt(events, m + 1).now
  {
    TimeGoesOn(StateAt(events, m), events[m]);
  }

  /** A delayed credit lasts: for 1000 ms from its grant it is there, unless it is used or a trusted
      interaction takes it away. */
  lemma {:induction false} DelayedCreditLasts(events: seq<Event>, n: nat, key: Key, j: nat)
    requires j < n <= |events| && OutcomeAt(events, j) == GrantedDelayed(key)
    requires forall m :: j < m < n ==> Quiet(events, m)
    requires StateAt(events, n).now < StateAt(events, j).now + 1000
    ensures HasDelayed(StateAt(events, n), key, StateAt(events, j).now + 1000)
    decreases n
  {
    var m := n - 1;
    if m == j {
      GrantAt(events, j, key);
    } else {
      TimeAt(events, m);
      DelayedCreditLasts(events, m, key, j);
      QuietAt(events, m, key, StateAt(events, j).now + ACTIVATION_AUTHORIZATION_MS);
    }
  }

  /** A native call spends a credit if there is one, else a delayed credit if there is one, else it is blocked. */
  lemma NativeCallIsBlockedExactly(events: seq<Event>, i: nat, key: Key)
    requires i < |events| && events[i] == NativeBegin(key)
    ensures OutcomeAt(events, i) == Blocked <==> !CreditLeft(events, i, key) && key !in StateAt(events, i).activation
    ensures OutcomeAt(events, i) == LetThrough(key) <==> CreditLeft(events, i, key)
    ensures OutcomeAt(events, i) == LetThroughDelayed(key) <==>
      !CreditLeft(events, i, key) && key in StateAt(events, i).activation
  {
    AuthorizedExactly(events, i, key);
  }

  /** The native calls in progress, innermost last. */
  function InProgress(events: seq<Event>, n: nat): seq<Key>
    requires n <= |events|
  {
    if n == 0 then [] else
    var before, o := InProgress(events, n - 1), OutcomeAt(events, n - 1);
    if o.LetThrough? || o.LetThroughDelayed? then before + [o.key]
    else if events[n - 1].NativeEnd? && before != [] then before[..|before| - 1]
    else before
  }

  /** A native call of the form was let through, none of its submit events has used that yet, and no native call
      of the form has ended since. */
  predicate Permitted(events: seq<Event>, n: nat, key: Key)
    requires n <= |events|
  {
    n > 0 &&
    (Through(OutcomeAt(events, n - 1), key) ||
     (OutcomeAt(events, n - 1) != Admitted(key) && !Ends(events, n - 1, key) && Permitted(events, n - 1, key)))
  }

  predicate Ends(events: seq<Event>, i: nat, key: Key)
    requires i < |events|
  {
    var calls := InProgress(events, i);
    events[i].NativeEnd? && calls != [] && calls[|calls| - 1] == key
  }

  lemma StepMovesCalls(s: State, e: Event)
    ensures var (s', o) := Step(s, e);
      s'.calls == if o.LetThrough? || o.LetThroughDelayed? then s.calls + [o.key]
                  else if e.NativeEnd? && s.calls != [] then s.calls[..|s.calls| - 1] else s.calls
  {
  }

  lemma StepMovesPermits(s: State, e: Event, key: Key)
    ensures var (s', o) := Step(s, e);
      key in s'.allowed <==>
        Through(o, key) ||
        (o != Admitted(key) && !(e.NativeEnd? && s.calls != [] && s.calls[|s.calls| - 1] == key) && key in s.allowed)
  {
  }

  lemma {:induction false} CallsAreInProgress(events: seq<Event>, n: nat)
    requires n <= |events|
    ensures StateAt(events, n).calls == InProgress(events, n)
  {
    if n > 0 {
      CallsAreInProgress(events, n - 1);
      StepMovesCalls(StateAt(events, n - 1), events[n - 1]);
    }
  }

  lemma PermitsAt(events: seq<Event>, i: nat, key: Key)
    requires i < |events|
    ensures key in StateAt(events, i + 1).allowed <==>
      Through(OutcomeAt(events, i), key) ||
      (OutcomeAt(events, i) != Admitted(key) && !Ends(events, i, key) && key in StateAt(events, i).allowed)
  {
    CallsAreInProgress(events, i);
    StepMovesPermits(StateAt(events, i), events[i], key);
  }

  lemma {:induction false} PermittedExactly(events: seq<Event>, n: nat, key: Key)
    requires n <= |events|
    ensures key in StateAt(events, n).allowed <==> Permitted(events, n, key)
  {
    if n > 0 {
      PermittedExactly(events, n - 1, key);
      PermitsAt(events, n - 1, key);
    }
  }

  /** A submit event is admitted for a native call if one permits it, else it spends a credit if there is one, else
      it is blocked; one outside every form always is. */
  lemma SubmitEventIsBlockedExactly(events: seq<Event>, i: nat)
    requires i < |events| && events[i].Submit?
    ensures OutcomeAt(events, i) ==
      if events[i].form.None? then Blocked else
      var key := events[i].form.value;
      if Permitted(events, i, key) then Admitted(key)
      else if CreditLeft(events, i, key) then Passed(key, events[i].trusted)
      else Blocked
  {
    if events[i].form.Some? {
      AuthorizedExactly(events, i, events[i].form.value);
      PermittedExactly(events, i, events[i].form.value);
    }
  }

  // ---- form keys ----

  /** The places in the document where the attribute has the value. */
  function Places(forms: seq<Form>, attribute: Attribute, value: string): set<nat> {
    set i: nat | i < |forms| && Get(forms[i], attribute) == Some(value)
  }

  lemma PlacesExtend(front: seq<Form>, last: Form, attribute: Attribute, value: string)
    ensures Places(front + [last], attribute, value) ==
            Places(front, attribute, value) + if Get(last, attribute) == Some(value) then {|front|} else {}
  {
    forall i: nat ensures i in Places(front + [last], attribute, value) <==>
      i in Places(front, attribute, value) || (i == |front| && Get(last, attribute) == Some(value))
    {
      assert i < |front| ==> (front + [last])[i] == front[i];
    }
  }

  lemma {:induction false} HoldersAreCounted(forms: seq<Form>, attribute: Attribute, value: string)
    ensures |Holders(forms, attribute, value)| == |Places(forms, attribute, value)|
  {
    if forms != [] {
      var front, last := forms[..|forms| - 1], forms[|forms| - 1];
      HoldersAreCounted(front, attribute, value);
      PlacesExtend(front, last, attribute, value);
      assert forms == front + [last] && |front| !in Places(front, attribute, value);
    }
  }

  /** A form is named by its id if that is not empty and in one place of the document only, else by its name under
      the same condition, else by its token. */
  lemma KeyExactly(forms: seq<Form>, tokens: map<nat, nat>, form: Form)
    ensures var byId := form.id.Some? && form.id.value != "" && |Places(forms, IdAttribute, form.id.value)| == 1;
      var byName := form.name.Some? && form.name.value != "" && |Places(forms, NameAttribute, form.name.value)| == 1;
      KeyOf(forms, tokens, form) ==
        if byId then Some(IdKey(form.id.value)) else if byName then Some(NameKey(form.name.value))
        else if form.ref in tokens then Some(TokenKey(tokens[form.ref])) else None
  {
    if form.id.Some? {
      HoldersAreCounted(forms, IdAttribute, form.id.value);
    }
    if form.name.Some? {
      HoldersAreCounted(forms, NameAttribute, form.name.value);
    }
  }

  ghost predicate DistinctForms(forms: seq<Form>) {
    forall i, j :: 0 <= i < j < |forms| ==> forms[i].ref != forms[j].ref
  }

  lemma {:induction false} HoldersContain(forms: seq<Form>, attribute: Attribute, value: string, form: Form)
    requires form in forms && Get(form, attribute) == Some(value)
    ensures form in Holders(forms, attribute, value)
  {
    var last := forms[|forms| - 1];
    if form != last {
      HoldersContain(forms[..|forms| - 1], attribute, value, form);
    }
  }

  /** On the forms of a fixed document the keys are injective, also when they are computed at different
      times, so credits never move between forms. */
  lemma KeysAreInjective(forms: seq<Form>, tokens: map<nat, nat>, later: map<nat, nat>, next: nat, f: Form, g: Form)
    requires DistinctForms(forms) && f in forms && g in forms
    requires TokensOk(later, next) && forall r :: r in tokens ==> r in later && later[r] == tokens[r]
    requires KeyOf(forms, tokens, f).Some? && KeyOf(forms, tokens, f) == KeyOf(forms, later, g)
    ensures f == g
  {
    if KeyOf(forms, tokens, f).value.IdKey? {
      HoldersContain(forms, IdAttribute, f.id.value, f);
      HoldersContain(forms, IdAttribute, f.id.value, g);
    } else if KeyOf(forms, tokens, f).value.NameKey? {
      HoldersContain(forms, NameAttribute, f.name.value, f);
      HoldersContain(forms, NameAttribute, f.name.value, g);
    }
  }

  /** `f` carries an attribute that names it in the document, and `g` carries the same one. */
  predicate Shares(forms: seq<Form>, f: Form, g: Form) {
    || (Names(forms, IdAttribute, f) && g.id == f.id)
    || (!Names(forms, IdAttribute, f) && !Names(forms, IdAttribute, g) && Names(forms, NameAttribute, f) && g.name == f.name)
  }

  /** Two forms, inside the document or not, have equal keys exactly when they are the same form or share
      the naming attribute. */
  lemma KeysAgreeExactly(forms: seq<Form>, tokens: map<nat, nat>, later: map<nat, nat>, next: nat, f: Form, g: Form)
    requires TokensOk(later, next) && forall r :: r in tokens ==> r in later && later[r] == tokens[r]
    requires f.ref == g.ref ==> f == g
    requires KeyOf(forms, tokens, f).Some? && KeyOf(forms, later, g).Some?
    ensures KeyOf(forms, tokens, f) == KeyOf(forms, later, g) <==> f == g || Shares(forms, f, g)
  {
  }

  /** Of two different forms that share a key, one is outside the document. */
  lemma SharingIsFromOutside(forms: seq<Form>, f: Form, g: Form)
    requires f != g && Shares(forms, f, g)
    ensures !(f in forms && g in forms)
  {
    if f in forms && g in forms {
      var attribute := if Names(forms, IdAttribute, f) then IdAttribute else NameAttribute;
      HoldersContain(forms, attribute, Get(f, attribute).value, f);
      HoldersContain(forms, attribute, Get(f, attribute).value, g);
    }
  }

  /** A form outside the document spends the credit of one inside it exactly when it carries the
      attribute that names the other. */
  lemma OutsideFormSpendsExactly(forms: seq<Form>, s: State, tokens: map<nat, nat>, next: nat, inside: Form, outside: Form)
    requires inside in forms && outside !in forms && (inside.ref == outside.ref ==> inside == outside)
    requires TokensOk(tokens, next) && KeyOf(forms, tokens, inside).Some? && KeyOf(forms, tokens, outside).Some?
    requires KeyOf(forms, tokens, inside).value in s.authorized
    ensures Step(s, NativeBegin(KeyOf(forms, tokens, outside).value)).1 == LetThrough(KeyOf(forms, tokens, inside).value)
      <==> Shares(forms, inside, outside)
  {
    KeysAgreeExactly(forms, tokens, tokens, next, inside, outside);
  }

  /** A form that is not in the document can take over the key of one that is. */
  lemma DetachedFormSharesAKey(tokens: map<nat, nat>)
    ensures var inside, detached := Form(0, Some("apply"), None), Form(1, Some("apply"), None);
      KeyOf([inside], tokens, inside) == Some(IdKey("apply")) == KeyOf([inside], tokens, detached)
  {
    var inside := Form(0, Some("apply"), None);
    assert [inside][..0] == [];
    assert Holders([inside], IdAttribute, "apply") == [inside];
  }
}
