/** The submission guard of extension/src/guard.ts as a state machine over classified events. */
module GuardModel {
  import opened Options

  /** Keys under which credits are kept. */
  datatype Key = IdKey(value: string) | NameKey(value: string) | TokenKey(token: nat)

  const ACTIVATION_AUTHORIZATION_MS := 1000

  /** A timer keeps the key of its callback. Timers are numbered in the order in which they are set. */
  datatype Timer = Timer(key: Key, deadline: int)

  /** `activation` holds the delayed credits of non-submit buttons with their timers. `calls` are the
      native calls in progress, innermost last; `pending` are the microtasks that watch a passed
      trusted submit event. `issued` and `live` are the timers ever set and those still running. */
  datatype State = State(
    authorized: set<Key>,
    activation: map<Key, nat>,
    allowed: set<Key>,
    calls: seq<Key>,
    pending: seq<Key>,
    issued: seq<Timer>,
    live: set<nat>,
    now: int)

  const INITIAL := State({}, map[], {}, [], [], [], {}, 0)

  datatype Target = SubmitControl(key: Key) | ButtonControl(key: Key) | Elsewhere

  datatype Event =
    | Click(trusted: bool, target: Target, active: bool)
    | Keydown(trusted: bool, plainEnter: bool, form: Option<Key>)   // form of an implicit submit control
    | Interaction(trusted: bool)                                    // pointerdown, mousedown, touchstart, input, change
    | TimerFires(timer: nat)
    | NativeBegin(key: Key)                                         // submit(), requestSubmit() or click() on a submitter
    | NativeEnd
    | Submit(form: Option<Key>, trusted: bool)
    | Microtask(prevented: bool)
    | Tick(to: int)

  datatype Outcome =
    | Nothing
    | Granted(key: Key)
    | GrantedDelayed(key: Key)
    | LetThrough(key: Key)             // native call on an authorization
    | LetThroughDelayed(key: Key)      // native call on a delayed credit
    | Admitted(key: Key)               // submit event of a native call that was let through
    | Passed(key: Key, trusted: bool)  // submit event on an authorization
    | Restored(key: Key)
    | Blocked

  function DropActivations(s: State): State {
    s.(live := s.live - s.activation.Values, activation := map[])
  }

  function Authorize(s: State, key: Key): State {
    s.(authorized := s.authorized + {key})
  }

  function SetActivation(s: State, key: Key): State {
    s.(activation := s.activation[key := |s.issued|],
       issued := s.issued + [Timer(key, s.now + ACTIVATION_AUTHORIZATION_MS)],
       live := s.live + {|s.issued|})
  }

  /** A fired timer may be a stale one whose cancellation came too late. */
  function FireTimer(s: State, timer: nat): State
    requires timer < |s.issued|
  {
    var key := s.issued[timer].key;
    s.(live := s.live - {timer},
       activation := if key in s.activation && s.activation[key] == timer then s.activation - {key} else s.activation)
  }

  function BeginNative(s: State, key: Key): (State, Outcome) {
    if key in s.authorized then
      (s.(authorized := s.authorized - {key}, allowed := s.allowed + {key}, calls := s.calls + [key]), LetThrough(key))
    else if key in s.activation then
      (s.(activation := s.activation - {key}, live := s.live - {s.activation[key]},
          allowed := s.allowed + {key}, calls := s.calls + [key]), LetThroughDelayed(key))
    else (s, Blocked)
  }

  function EndNative(s: State): State
    requires s.calls != []
  {
    s.(allowed := s.allowed - {s.calls[|s.calls| - 1]}, calls := s.calls[..|s.calls| - 1])
  }

  function SubmitEvent(s: State, form: Option<Key>, trusted: bool): (State, Outcome) {
    if form.None? then (s, Blocked) else
    var key := form.value;
    if key in s.allowed then (s.(allowed := s.allowed - {key}), Admitted(key))
    else if key !in s.authorized then (s, Blocked)
    else (s.(authorized := s.authorized - {key}, pending := if trusted then s.pending + [key] else s.pending),
          Passed(key, trusted))
  }

  function RunMicrotask(s: State, prevented: bool): (State, Outcome)
    requires s.pending != []
  {
    var key, rest := s.pending[0], s.pending[1..];
    if prevented then (Authorize(s.(pending := rest), key), Restored(key)) else (s.(pending := rest), Nothing)
  }

  function UserClick(s: State, target: Target, active: bool): (State, Outcome) {
    var dropped := DropActivations(s);
    match target
    case SubmitControl(key) => (Authorize(dropped, key), Granted(key))
    case ButtonControl(key) => if active then (SetActivation(dropped, key), GrantedDelayed(key)) else (dropped, Nothing)
    case Elsewhere => (dropped, Nothing)
  }

  function UserKeydown(s: State, plainEnter: bool, form: Option<Key>): (State, Outcome) {
    var dropped := DropActivations(s);
    if plainEnter && form.Some? then (Authorize(dropped, form.value), Granted(form.value)) else (dropped, Nothing)
  }

  /** An event that cannot happen leaves the state alone: a running timer never fires early, time does
      not pass the deadline of a running timer, and only existing timers, calls and microtasks act. */
  function Step(s: State, e: Event): (State, Outcome) {
    match e
    case Click(trusted, target, active) => if trusted then UserClick(s, target, active) else (s, Nothing)
    case Keydown(trusted, plainEnter, form) => if trusted then UserKeydown(s, plainEnter, form) else (s, Nothing)
    case Interaction(trusted) => (if trusted then DropActivations(s) else s, Nothing)
    case TimerFires(timer) =>
      if timer < |s.issued| && (timer in s.live ==> s.issued[timer].deadline <= s.now)
      then (FireTimer(s, timer), Nothing) else (s, Nothing)
    case NativeBegin(key) => BeginNative(s, key)
    case NativeEnd => (if s.calls == [] then s else EndNative(s), Nothing)
    case Submit(form, trusted) => SubmitEvent(s, form, trusted)
    case Microtask(prevented) => if s.pending == [] then (s, Nothing) else RunMicrotask(s, prevented)
    case Tick(to) =>
      if s.now <= to && forall t :: t in s.live && t < |s.issued| ==> to <= s.issued[t].deadline
      then (s.(now := to), Nothing) else (s, Nothing)
  }

  function StateAt(events: seq<Event>, n: nat): State
    requires n <= |events|
  {
    if n == 0 then INITIAL else Step(StateAt(events, n - 1), events[n - 1]).0
  }

  function OutcomeAt(events: seq<Event>, i: nat): Outcome
    requires i < |events|
  {
    Step(StateAt(events, i), events[i]).1
  }

  // ---- form keys ----

  /** A form element: its identity and the two attributes that can name it. */
  datatype Form = Form(ref: nat, id: Option<string>, name: Option<string>)

  datatype Attribute = IdAttribute | NameAttribute

  function Get(form: Form, attribute: Attribute): Option<string> {
    if attribute.IdAttribute? then form.id else form.name
  }

  function AttributeKey(attribute: Attribute, value: string): Key {
    if attribute.IdAttribute? then IdKey(value) else NameKey(value)
  }

  /** `doc.forms` filtered to those whose attribute has the value. */
  function Holders(forms: seq<Form>, attribute: Attribute, value: string): seq<Form> {
    if forms == [] then [] else
    Holders(forms[..|forms| - 1], attribute, value) +
    if Get(forms[|forms| - 1], attribute) == Some(value) then [forms[|forms| - 1]] else []
  }

  /** The attribute names the form alone in the document. */
  predicate Names(forms: seq<Form>, attribute: Attribute, form: Form) {
    var value := Get(form, attribute);
    value.Some? && value.value != "" && |Holders(forms, attribute, value.value)| == 1
  }

  function KeyOf(forms: seq<Form>, tokens: map<nat, nat>, form: Form): Option<Key> {
    if Names(forms, IdAttribute, form) then Some(IdKey(form.id.value))
    else if Names(forms, NameAttribute, form) then Some(NameKey(form.name.value))
    else if form.ref in tokens then Some(TokenKey(tokens[form.ref]))
    else None
  }

  /** Tokens are handed out once each. */
  ghost predicate TokensOk(tokens: map<nat, nat>, next: nat) {
    && (forall r :: r in tokens ==> tokens[r] < next)
    && (forall r, q :: r in tokens && q in tokens && tokens[r] == tokens[q] ==> r == q)
  }
}
