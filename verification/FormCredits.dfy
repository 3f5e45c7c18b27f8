/** The guard's events told by forms instead of keys: whose credit is spent? */
module FormCredits {
  import opened GuardModel
  import opened GuardTheorems
  import opened Options
  import opened SubmissionGuarding

  datatype Control = SubmitOf(form: Form) | ButtonOf(form: Form) | NoControl

  /** The events of GuardModel, with the form where they have a key. */
  datatype FormEvent =
    | FormClick(trusted: bool, control: Control, active: bool)
    | FormKeydown(trusted: bool, plainEnter: bool, form: Option<Form>)
    | FormInteraction(trusted: bool)
    | FormTimer(timer: nat)
    | FormNative(caller: Form)
    | FormNativeEnd
    | FormSubmit(target: Option<Form>, trusted: bool)
    | FormMicrotask(prevented: bool)
    | FormTick(to: int)

  /** The form whose key the guard asks for. */
  function Acting(e: FormEvent): Option<Form> {
    match e
    case FormClick(trusted, SubmitOf(form), _) => if trusted then Some(form) else None
    case FormClick(trusted, ButtonOf(form), active) => if trusted && active then Some(form) else None
    case FormKeydown(trusted, plainEnter, form) => if trusted && plainEnter then form else None
    case FormNative(caller) => Some(caller)
    case FormSubmit(target, _) => target
    case _ => None
  }

  /** The event as the guard sees it, once the acting form has its key. */
  function Keyed(e: FormEvent, key: Option<Key>): Event
    requires key.Some? <==> Acting(e).Some?
  {
    match e
    case FormClick(trusted, control, active) =>
      if key.None? then Click(trusted, Elsewhere, active)
      else Click(trusted, if control.SubmitOf? then SubmitControl(key.value) else ButtonControl(key.value), active)
    case FormKeydown(trusted, plainEnter, _) => Keydown(trusted, plainEnter, key)
    case FormInteraction(trusted) => Interaction(trusted)
    case FormTimer(timer) => TimerFires(timer)
    case FormNative(_) => NativeBegin(key.value)
    case FormNativeEnd => NativeEnd
    case FormSubmit(_, trusted) => Submit(key, trusted)
    case FormMicrotask(prevented) => Microtask(prevented)
    case FormTick(to) => Tick(to)
  }

  /** The guard with its tokens; `watched` are the forms behind the pending microtasks. */
  datatype Guard = Guard(state: State, tokens: map<nat, nat>, next: nat, watched: seq<Form>)

  const NEW_GUARD := Guard(INITIAL, map[], 0, [])

  /** Asking for a form's key hands out a token if need be. */
  function Named(forms: seq<Form>, g: Guard, form: Form): (r: Guard)
    ensures KeyOf(forms, r.tokens, form).Some?
  {
    if KeyOf(forms, g.tokens, form).Some? then g
    else g.(tokens := g.tokens[form.ref := g.next], next := g.next + 1)
  }

  function FormStep(forms: seq<Form>, g: Guard, e: FormEvent): (Guard, Outcome) {
    var who := Acting(e);
    var named := if who.Some? then Named(forms, g, who.value) else g;
    var key := if who.Some? then KeyOf(forms, named.tokens, who.value) else None;
    var (state, o) := Step(g.state, Keyed(e, key));
    (named.(state := state,
            watched := if who.Some? && o.Passed? && o.trusted then g.watched + [who.value]
                       else if e.FormMicrotask? && g.watched != [] then g.watched[1..] else g.watched),
     o)
  }

  function GuardAt(forms: seq<Form>, events: seq<FormEvent>, n: nat): Guard
    requires n <= |events|
  {
    if n == 0 then NEW_GUARD else FormStep(forms, GuardAt(forms, events, n - 1), events[n - 1]).0
  }

  ghost function Reading(guard: SubmissionGuard, watched: seq<Form>): Guard
    reads guard
  {
    Guard(guard.Snapshot(), guard.formTokens, guard.nextFormToken, watched)
  }

  /** One event, once its key is known. False means that a submission was blocked. An event that cannot happen,
      such as a timer that was never set, is passed over. */
  method Deliver(guard: SubmissionGuard, e: Event) returns (ok: bool)
    modifies guard
    ensures guard.Snapshot() == Step(old(guard.Snapshot()), e).0
    ensures guard.formTokens == old(guard.formTokens) && guard.nextFormToken == old(guard.nextFormToken)
    ensures ok <==> Step(old(guard.Snapshot()), e).1 != Blocked
  {
    ok := true;
    match e
    case Click(trusted, target, active) => guard.AuthorizeFromClick(trusted, target, active);
    case Keydown(trusted, plainEnter, form) => guard.AuthorizeFromKeydown(trusted, plainEnter, form);
    case Interaction(trusted) => guard.ClearActivationOnTrustedInteraction(trusted);
    case TimerFires(timer) =>
      if timer < |guard.issued| && (timer in guard.live ==> guard.issued[timer].deadline <= guard.now) {
        guard.OnTimer(timer);
      }
    case NativeBegin(key) => ok := guard.AllowNativeSubmission(key);
    case NativeEnd =>
      if guard.calls != [] {
        guard.FinishNativeSubmission();
      }
    case Submit(form, trusted) => ok := guard.OnSubmit(form, trusted);
    case Microtask(prevented) =>
      if guard.pending != [] {
        guard.RestoreIfPrevented(prevented);
      }
    case Tick(to) =>
      if guard.now <= to && forall t :: t in guard.live && t < |guard.issued| ==> to <= guard.issued[t].deadline {
        guard.now := to;
      }
  }

  /** The step on forms is what the listeners do with the key that they ask for. */
  method Drive(guard: SubmissionGuard, forms: seq<Form>, e: FormEvent, ghost watched: seq<Form>) returns (ok: bool)
    requires guard.Valid()
    modifies guard
    ensures guard.Valid()
    ensures Reading(guard, FormStep(forms, old(Reading(guard, watched)), e).0.watched) ==
            FormStep(forms, old(Reading(guard, watched)), e).0
    ensures ok <==> FormStep(forms, old(Reading(guard, watched)), e).1 != Blocked
  {
    var who, key := Acting(e), None;
    if who.Some? {
      var asked := guard.FormKey(forms, who.value);
      key := Some(asked);
    }
    ok := Deliver(guard, Keyed(e, key));
  }

  // ---- a form's own credits ----

  /** A human acts on the form. */
  predicate OwnGrant(e: FormEvent, f: Form) {
    Acting(e) == Some(f) && (e.FormClick? || e.FormKeydown?)
  }

  predicate OwnSpend(e: FormEvent, o: Outcome, f: Form) {
    Acting(e) == Some(f) && (o.LetThrough? || o.LetThroughDelayed? || o.Passed?)
  }

  /** The oldest watched submit event was the form's, and the page cancelled it. */
  predicate OwnCancel(g: Guard, e: FormEvent, f: Form) {
    e == FormMicrotask(true) && g.watched != [] && g.watched[0] == f
  }

  datatype Balance = Balance(granted: nat, cancelled: nat, spent: nat)

  /** What the first `n` events did with the credits of one form. */
  function BalanceAt(forms: seq<Form>, events: seq<FormEvent>, n: nat, f: Form): Balance
    requires n <= |events|
  {
    if n == 0 then Balance(0, 0, 0) else
    var b, g, e := BalanceAt(forms, events, n - 1, f), GuardAt(forms, events, n - 1), events[n - 1];
    var o := FormStep(forms, g, e).1;
    Balance(b.granted + Bit(OwnGrant(e, f)), b.cancelled + Bit(OwnCancel(g, e, f)), b.spent + Bit(OwnSpend(e, o, f)))
  }

  function OwnHeld(forms: seq<Form>, g: Guard, f: Form): nat {
    var key := KeyOf(forms, g.tokens, f);
    if key.None? then 0 else Held(g.state, key.value)
  }

  /** The two forms never have the same key. */
  predicate Apart(forms: seq<Form>, f: Form, g: Form) {
    f == g || (f.ref != g.ref && !Shares(forms, f, g))
  }

  ghost predicate AllApart(forms: seq<Form>, f: Form, events: seq<FormEvent>) {
    forall i :: 0 <= i < |events| && Acting(events[i]).Some? ==> Apart(forms, f, Acting(events[i]).value)
  }

  predicate Known(key: Key, next: nat) {
    key.TokenKey? ==> key.token < next
  }

  /** Credits are kept under keys that were handed out, and each pending microtask has its form. */
  ghost predicate Ok(forms: seq<Form>, g: Guard, f: Form) {
    && TokensOk(g.tokens, g.next)
    && (forall key :: key in g.state.authorized || key in g.state.activation ==> Known(key, g.next))
    && |g.watched| == |g.state.pending|
    && (forall i :: 0 <= i < |g.watched| ==>
          KeyOf(forms, g.tokens, g.watched[i]) == Some(g.state.pending[i]) && Known(g.state.pending[i], g.next) &&
          Apart(forms, f, g.watched[i]))
  }

  lemma NamedKeepsKeys(forms: seq<Form>, g: Guard, form: Form)
    requires TokensOk(g.tokens, g.next)
    ensures var r := Named(forms, g, form);
      && TokensOk(r.tokens, r.next) && g.next <= r.next && r.state == g.state && r.watched == g.watched
      && Known(KeyOf(forms, r.tokens, form).value, r.next)
      && (forall other: Form :: KeyOf(forms, g.tokens, other).Some? ==>
            KeyOf(forms, r.tokens, other) == KeyOf(forms, g.tokens, other))
      && (forall other: Form :: other.ref != form.ref ==> KeyOf(forms, r.tokens, other) == KeyOf(forms, g.tokens, other))
      && (KeyOf(forms, g.tokens, form).None? ==> KeyOf(forms, r.tokens, form) == Some(TokenKey(g.next)))
  {
  }

  /** Outcomes and new credits are of the key in the event, or of the oldest microtask. */
  lemma StepIsAboutItsKey(s: State, e: Event, key: Key)
    requires match e
      case Click(_, target, _) => target.Elsewhere? || target.key != key
      case Keydown(_, _, form) => form != Some(key)
      case NativeBegin(other) => other != key
      case Submit(form, _) => form != Some(key)
      case Microtask(_) => s.pending != [] ==> s.pending[0] != key
      case _ => true
    ensures Held(Step(s, e).0, key) <= Held(s, key)
  {
  }

  lemma StepKeepsKnown(s: State, e: Event, next: nat)
    requires forall key :: key in s.authorized || key in s.activation ==> Known(key, next)
    requires forall i :: 0 <= i < |s.pending| ==> Known(s.pending[i], next)
    requires match e
      case Click(_, target, _) => target.Elsewhere? || Known(target.key, next)
      case Keydown(_, _, form) => form.None? || Known(form.value, next)
      case _ => true
    ensures var s' := Step(s, e).0; forall key :: key in s'.authorized || key in s'.activation ==> Known(key, next)
  {
  }

  lemma StepKeepsOk(forms: seq<Form>, g: Guard, e: FormEvent, f: Form)
    requires Ok(forms, g, f) && (Acting(e).Some? ==> Apart(forms, f, Acting(e).value))
    ensures Ok(forms, FormStep(forms, g, e).0, f)
  {
    var who := Acting(e);
    var named := if who.Some? then Named(forms, g, who.value) else g;
    var key := if who.Some? then KeyOf(forms, named.tokens, who.value) else None;
    if who.Some? {
      NamedKeepsKeys(forms, g, who.value);
    }
    StepKeepsKnown(g.state, Keyed(e, key), named.next);
    StepMovesPending(g.state, Keyed(e, key));
  }

  lemma OwnStep(forms: seq<Form>, g: Guard, e: FormEvent, f: Form)
    requires Ok(forms, g, f) && Acting(e) == Some(f)
    ensures var (g', o) := FormStep(forms, g, e);
      Bit(OwnSpend(e, o, f)) + OwnHeld(forms, g', f) <= Bit(OwnGrant(e, f)) + OwnHeld(forms, g, f)
  {
    NamedKeepsKeys(forms, g, f);
    var key := KeyOf(forms, Named(forms, g, f).tokens, f);
    StepConservesCredits(g.state, Keyed(e, key), key.value);
    assert KeyOf(forms, g.tokens, f).None? ==> Held(g.state, key.value) == 0;
  }

  lemma OthersStep(forms: seq<Form>, g: Guard, e: FormEvent, f: Form)
    requires Ok(forms, g, f) && Acting(e).Some? && Acting(e) != Some(f) && Apart(forms, f, Acting(e).value)
    ensures OwnHeld(forms, FormStep(forms, g, e).0, f) <= OwnHeld(forms, g, f)
  {
    var who := Acting(e).value;
    NamedKeepsKeys(forms, g, who);
    var named := Named(forms, g, who);
    if KeyOf(forms, named.tokens, f).Some? {
      KeysAgreeExactly(forms, named.tokens, named.tokens, named.next, f, who);
      StepIsAboutItsKey(g.state, Keyed(e, KeyOf(forms, named.tokens, who)), KeyOf(forms, named.tokens, f).value);
    }
  }

  lemma NobodysStep(forms: seq<Form>, g: Guard, e: FormEvent, f: Form)
    requires Ok(forms, g, f) && Acting(e).None?
    ensures var (g', o) := FormStep(forms, g, e);
      OwnHeld(forms, g', f) <= Bit(OwnCancel(g, e, f)) + OwnHeld(forms, g, f)
  {
    var key := KeyOf(forms, g.tokens, f);
    if key.Some? {
      if e.FormMicrotask? && g.watched != [] {
        KeysAgreeExactly(forms, g.tokens, g.tokens, g.next, f, g.watched[0]);
        if g.watched[0] == f {
          StepConservesCredits(g.state, Keyed(e, None), key.value);
        } else {
          StepIsAboutItsKey(g.state, Keyed(e, None), key.value);
        }
      } else {
        StepIsAboutItsKey(g.state, Keyed(e, None), key.value);
      }
    }
  }

  lemma {:induction false} OkHolds(forms: seq<Form>, events: seq<FormEvent>, n: nat, f: Form)
    requires n <= |events| && AllApart(forms, f, events)
    ensures Ok(forms, GuardAt(forms, events, n), f)
  {
    if n > 0 {
      OkHolds(forms, events, n - 1, f);
      StepKeepsOk(forms, GuardAt(forms, events, n - 1), events[n - 1], f);
    }
  }

  /** Credits never move between forms: while no other form shares its key, what a form spends and still
      holds never exceeds its own grants and its own cancelled submits. */
  lemma {:induction false} FormsSpendTheirOwn(forms: seq<Form>, events: seq<FormEvent>, n: nat, f: Form)
    requires n <= |events| && AllApart(forms, f, events)
    ensures var b := BalanceAt(forms, events, n, f);
      b.spent + OwnHeld(forms, GuardAt(forms, events, n), f) <= b.granted + b.cancelled
  {
    if n > 0 {
      FormsSpendTheirOwn(forms, events, n - 1, f);
      OkHolds(forms, events, n - 1, f);
      var g, e := GuardAt(forms, events, n - 1), events[n - 1];
      if Acting(e) == Some(f) {
        OwnStep(forms, g, e, f);
      } else if Acting(e).Some? {
        OthersStep(forms, g, e, f);
      } else {
        NobodysStep(forms, g, e, f);
      }
    }
  }

  /** So it is for every form while only forms of one fixed document act. */
  lemma DocumentFormsSpendTheirOwn(forms: seq<Form>, events: seq<FormEvent>, n: nat, f: Form)
    requires n <= |events| && f in forms && DistinctForms(forms)
    requires forall i :: 0 <= i < |events| && Acting(events[i]).Some? ==> Acting(events[i]).value in forms
    ensures var b := BalanceAt(forms, events, n, f); b.spent <= b.granted + b.cancelled
  {
    forall i | 0 <= i < |events| && Acting(events[i]).Some? ensures Apart(forms, f, Acting(events[i]).value) {
      var g := Acting(events[i]).value;
      if f != g && Shares(forms, f, g) {
        SharingIsFromOutside(forms, f, g);
      }
    }
    FormsSpendTheirOwn(forms, events, n, f);
  }

  /** Only these two forms act. */
  ghost predicate Between(f: Form, g: Form, events: seq<FormEvent>) {
    forall i :: 0 <= i < |events| ==> Acting(events[i]) in [None, Some(f), Some(g)]
  }

  ghost predicate NeverOverspends(forms: seq<Form>, f: Form, g: Form) {
    forall events, n: nat :: Between(f, g, events) && n <= |events| ==>
      BalanceAt(forms, events, n, g).spent <= BalanceAt(forms, events, n, g).granted + BalanceAt(forms, events, n, g).cancelled
  }

  /** A click on the submit control of `f`, then a native call of `g`. */
  lemma SharedKeyMovesACredit(forms: seq<Form>, f: Form, g: Form)
    requires f.ref != g.ref && Shares(forms, f, g)
    ensures BalanceAt(forms, [FormClick(true, SubmitOf(f), true), FormNative(g)], 2, g) == Balance(0, 0, 1)
  {
    var events := [FormClick(true, SubmitOf(f), true), FormNative(g)];
    var key := KeyOf(forms, map[], f).value;
    assert KeyOf(forms, map[], g) == Some(key);
    assert GuardAt(forms, events, 0) == NEW_GUARD;
    var clicked := GuardAt(forms, events, 1);
    assert clicked == FormStep(forms, NEW_GUARD, events[0]).0;
    assert clicked.tokens == map[] && clicked.state.authorized == {key};
    assert BalanceAt(forms, events, 0, g) == Balance(0, 0, 0);
    assert BalanceAt(forms, events, 1, g) == Balance(0, 0, 0);
    assert FormStep(forms, clicked, events[1]).1 == LetThrough(key);
  }

  /** Between two forms, in the document or not, no run lets one spend more than it was granted exactly when
      they do not share a naming attribute. */
  lemma CreditsMoveExactly(forms: seq<Form>, f: Form, g: Form)
    requires f.ref != g.ref
    ensures NeverOverspends(forms, f, g) <==> !Shares(forms, f, g)
  {
    if Shares(forms, f, g) {
      var events := [FormClick(true, SubmitOf(f), true), FormNative(g)];
      SharedKeyMovesACredit(forms, f, g);
      assert Between(f, g, events);
      assert BalanceAt(forms, events, 2, g) == Balance(0, 0, 1);
    } else {
      forall events, n: nat | Between(f, g, events) && n <= |events|
        ensures BalanceAt(forms, events, n, g).spent <=
                BalanceAt(forms, events, n, g).granted + BalanceAt(forms, events, n, g).cancelled
      {
        FormsSpendTheirOwn(forms, events, n, g);
      }
    }
  }
}
