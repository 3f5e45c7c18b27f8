/** The guard's own fields and listeners. */
module SubmissionGuarding {
  import opened Options
  import opened GuardModel

  class SubmissionGuard {
    var authorizedForms: set<Key>
    var activationForms: map<Key, nat>
    var allowedFormEvents: set<Key>
    var formTokens: map<nat, nat>
    var nextFormToken: nat
    // the page's side: native calls in progress, microtasks, timers and the time
    var calls: seq<Key>
    var pending: seq<Key>
    var issued: seq<Timer>
    var live: set<nat>
    var now: int

    ghost function Snapshot(): State
      reads this
    {
      State(authorizedForms, activationForms, allowedFormEvents, calls, pending, issued, live, now)
    }

    ghost predicate Valid()
      reads this
    {
      TokensOk(formTokens, nextFormToken)
    }

    constructor ()
      ensures Valid() && Snapshot() == INITIAL && formTokens == map[]
    {
      authorizedForms, activationForms, allowedFormEvents := {}, map[], {};
      formTokens, nextFormToken := map[], 0;
      calls, pending, issued, live, now := [], [], [], {}, 0;
    }

    /** Tries both attributes in turn, then falls back on a token that stays with the form. */
    method FormKey(forms: seq<Form>, form: Form) returns (key: Key)
      requires Valid()
      modifies this`formTokens, this`nextFormToken
      ensures Valid() && KeyOf(forms, formTokens, form) == Some(key)
      ensures if KeyOf(forms, old(formTokens), form).Some?
        then formTokens == old(formTokens) && nextFormToken == old(nextFormToken)
        else formTokens == old(formTokens)[form.ref := old(nextFormToken)] && nextFormToken == old(nextFormToken) + 1
    {
      var attributes := [IdAttribute, NameAttribute];
      for a := 0 to 2
        invariant forall b :: 0 <= b < a ==> !Names(forms, attributes[b], form)
      {
        var value := Get(form, attributes[a]);
        if value.Some? && value.value != "" {
          var matches: seq<Form> := [];
          for i := 0 to |forms|
            invariant matches == Holders(forms[..i], attributes[a], value.value)
          {
            assert forms[..i + 1][..i] == forms[..i];
            if Get(forms[i], attributes[a]) == value {
              matches := matches + [forms[i]];
            }
          }
          assert forms[..|forms|] == forms;
          if |matches| == 1 {
            assert a == 1 ==> !Names(forms, attributes[0], form);
            return AttributeKey(attributes[a], value.value);
          }
        }
      }
      assert !Names(forms, attributes[0], form) && !Names(forms, attributes[1], form);
      if form.ref in formTokens {
        return TokenKey(formTokens[form.ref]);
      }
      key := TokenKey(nextFormToken);
      formTokens := formTokens[form.ref := nextFormToken];
      nextFormToken := nextFormToken + 1;
    }

    /** Cancels every running activation timer and forgets the credits. */
    method ClearActivations()
      modifies this`activationForms, this`live
      ensures Snapshot() == DropActivations(old(Snapshot()))
    {
      var timers := activationForms.Values;
      var rest := timers;
      while rest != {}
        invariant rest <= timers && live == old(live) - (timers - rest)
        decreases |rest|
      {
        var timer :| timer in rest;
        live := live - {timer};
        rest := rest - {timer};
      }
      activationForms := map[];
    }

    method AuthorizeFromClick(trusted: bool, target: Target, active: bool)
      modifies this
      ensures Snapshot() == Step(old(Snapshot()), Click(trusted, target, active)).0
      ensures formTokens == old(formTokens) && nextFormToken == old(nextFormToken)
    {
      if !trusted {
        return;
      }
      ClearActivations();
      if target.SubmitControl? {
        authorizedForms := authorizedForms + {target.key};
      } else if target.ButtonControl? && active {
        var timer := |issued|;
        issued := issued + [Timer(target.key, now + ACTIVATION_AUTHORIZATION_MS)];
        live := live + {timer};
        activationForms := activationForms[target.key := timer];
      }
    }

    method AuthorizeFromKeydown(trusted: bool, plainEnter: bool, form: Option<Key>)
      modifies this
      ensures Snapshot() == Step(old(Snapshot()), Keydown(trusted, plainEnter, form)).0
      ensures formTokens == old(formTokens) && nextFormToken == old(nextFormToken)
    {
      if !trusted {
        return;
      }
      ClearActivations();
      if !plainEnter {
        return;
      }
      if form.Some? {
        authorizedForms := authorizedForms + {form.value};
      }
    }

    method ClearActivationOnTrustedInteraction(trusted: bool)
      modifies this`activationForms, this`live
      ensures Snapshot() == Step(old(Snapshot()), Interaction(trusted)).0
    {
      if !trusted {
        return;
      }
      ClearActivations();
    }

    /** The callback of an activation timer. */
    method OnTimer(timer: nat)
      requires timer < |issued|
      requires timer in live ==> issued[timer].deadline <= now
      modifies this`activationForms, this`live
      ensures Snapshot() == Step(old(Snapshot()), TimerFires(timer)).0
    {
      live := live - {timer};
      var key := issued[timer].key;
      if key in activationForms && activationForms[key] == timer {
        activationForms := activationForms - {key};
      }
    }

    method ConsumeAuthorization(key: Key) returns (authorized: bool)
      modifies this`authorizedForms
      ensures authorized <==> key in old(authorizedForms)
      ensures authorizedForms == old(authorizedForms) - {key}
    {
      if key !in authorizedForms {
        return false;
      }
      authorizedForms := authorizedForms - {key};
      return true;
    }

    /** The part of allowNativeSubmission before the native method is invoked; true if it is. */
    method AllowNativeSubmission(key: Key) returns (invoked: bool)
      modifies this
      ensures Snapshot() == Step(old(Snapshot()), NativeBegin(key)).0
      ensures invoked <==> Step(old(Snapshot()), NativeBegin(key)).1 != Blocked
      ensures formTokens == old(formTokens) && nextFormToken == old(nextFormToken)
    {
      var authorized := ConsumeAuthorization(key);
      if !authorized {
        if key !in activationForms {
          return false;
        }
        live := live - {activationForms[key]};
        activationForms := activationForms - {key};
      }
      allowedFormEvents := allowedFormEvents + {key};
      calls := calls + [key];
      return true;
    }

    /** Its finally block, when the innermost native call returns or throws. */
    method FinishNativeSubmission()
      requires calls != []
      modifies this`allowedFormEvents, this`calls
      ensures Snapshot() == Step(old(Snapshot()), NativeEnd).0
    {
      allowedFormEvents := allowedFormEvents - {calls[|calls| - 1]};
      calls := calls[..|calls| - 1];
    }

    /** The capture listener; false means that the event was cancelled and stopped. */
    method OnSubmit(form: Option<Key>, trusted: bool) returns (passed: bool)
      modifies this
      ensures Snapshot() == Step(old(Snapshot()), Submit(form, trusted)).0
      ensures passed <==> Step(old(Snapshot()), Submit(form, trusted)).1 != Blocked
      ensures formTokens == old(formTokens) && nextFormToken == old(nextFormToken)
    {
      if form.None? {
        return false;
      }
      var key := form.value;
      if key in allowedFormEvents {
        allowedFormEvents := allowedFormEvents - {key};
        return true;
      }
      var authorized := ConsumeAuthorization(key);
      if !authorized {
        return false;
      }
      if trusted {
        pending := pending + [key];
      }
      return true;
    }

    /** The microtask of a passed trusted submit event. */
    method RestoreIfPrevented(prevented: bool)
      requires pending != []
      modifies this`authorizedForms, this`pending
      ensures Snapshot() == Step(old(Snapshot()), Microtask(prevented)).0
    {
      var key := pending[0];
      pending := pending[1..];
      if prevented {
        authorizedForms := authorizedForms + {key};
      }
    }
  }
}
