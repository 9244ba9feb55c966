/**
 * The two-state toggle `Activator` of src/Page.js: a boolean `active` and a
 * string `activationKey` drawn from the closed set {"ACTIVATED", "DEACTIVATED"}.
 */
module Activation {
  import opened Outcomes

  const ACTIVATED: string := "ACTIVATED"
  const DEACTIVATED: string := "DEACTIVATED"

  /** `Object.keys(Activator.STATUSES)`: the key names, which equal their values. */
  const StatusKeys: seq<string> := [ACTIVATED, DEACTIVATED]

  /** `Object.keys(Activator.STATUSES).includes(status)` */
  predicate IsStatus(status: string) {
    status in StatusKeys
  }

  /** The key the constructor pairs with an initial `active` flag. */
  function KeyFor(active: bool): string {
    if active then ACTIVATED else DEACTIVATED
  }

  /** The observable state of one activator. */
  datatype ActivatorState = ActivatorState(active: bool, activationKey: string)

  /** The field invariant: the key is in the status set and agrees with `active`. */
  predicate Consistent(s: ActivatorState) {
    s.activationKey == KeyFor(s.active)
  }

  lemma ConsistentMeans(s: ActivatorState)
    ensures Consistent(s) <==> IsStatus(s.activationKey) && s.active == (s.activationKey == ACTIVATED)
  {
  }

  /**
   * The effect of the closure built by `_toggleActiveStatus(status)` when it is
   * called: the `switch` over the status, whose default branch does nothing.
   */
  function Transition(s: ActivatorState, status: string): (r: ActivatorState)
    ensures IsStatus(status) ==> r.activationKey == status && r.active == (status == ACTIVATED)
    ensures !IsStatus(status) ==> r == s
    ensures Consistent(s) ==> Consistent(r)
  {
    if status == ACTIVATED then ActivatorState(true, status)
    else if status == DEACTIVATED then ActivatorState(false, status)
    else s
  }

  /** Applying the same transition twice is the same as applying it once. */
  lemma TransitionIdempotent(s: ActivatorState, status: string)
    ensures Transition(Transition(s, status), status) == Transition(s, status)
  {
  }

  /** A valid transition forgets the previous state entirely. */
  lemma TransitionOverwrites(s: ActivatorState, t: ActivatorState, status: string)
    requires IsStatus(status)
    ensures Transition(s, status) == Transition(t, status)
  {
  }

  /**
   * The closure returned by `_toggleActiveStatus(status)`: building it changes
   * nothing; only `Activator.Invoke` (calling it) performs the transition.
   */
  datatype Thunk = ToggleTo(status: string)

  class Activator {
    var active: bool
    var activationKey: string

    ghost function State(): ActivatorState
      reads this
    {
      ActivatorState(active, activationKey)
    }

    ghost predicate Valid()
      reads this
    {
      Consistent(State())
    }

    /** `new Activator(active)`; `active` defaults to false. */
    constructor (active: bool := false)
      ensures Valid()
      ensures this.active == active
      ensures (activationKey == ACTIVATED) == active && IsStatus(activationKey)
    {
      this.active := active;
      this.activationKey := KeyFor(active);
    }

    /** Calling the closure `_toggleActiveStatus(t.status)`. */
    method Invoke(t: Thunk)
      requires Valid()
      modifies this
      ensures Valid()
      ensures State() == Transition(old(State()), t.status)
    {
      if t.status == ACTIVATED {
        activationKey := t.status;
        active := true;
      } else if t.status == DEACTIVATED {
        activationKey := t.status;
        active := false;
      }
    }

    /** `compareStatus(status)`: does `status` name the current state? */
    function CompareStatus(status: string): (r: bool)
      reads this
      requires Valid()
      ensures r <==> IsStatus(status) && active == (status == ACTIVATED)
    {
      status == activationKey
    }

    /** `toggleBasedOnStatus(status)`: the checked transition. */
    method ToggleBasedOnStatus(status: string) returns (r: Result<()>)
      requires Valid()
      modifies this
      ensures Valid()
      ensures r == if IsStatus(status) then Success(()) else Failure(ActivationStatusUnsupported)
      ensures State() == Transition(old(State()), status)
      ensures IsStatus(status) ==> activationKey == status && active == (status == ACTIVATED)
      ensures !IsStatus(status) ==> State() == old(State())
    {
      if !IsStatus(status) {
        return Failure(ActivationStatusUnsupported);
      }
      Invoke(ToggleTo(status));
      r := Success(());
    }

    /**
     * `activate()` as written: it builds the closure and drops it without
     * calling it, so nothing changes.
     */
    method Activate()
      ensures State() == old(State())
    {
      var pending := ToggleTo(ACTIVATED);
    }

    /** `deactivate()` as written: the same dropped closure, so nothing changes. */
    method Deactivate()
      ensures State() == old(State())
    {
      var pending := ToggleTo(DEACTIVATED);
    }

    /** `activate()` with the closure called, as its name promises. */
    method ActivateAsIntended()
      requires Valid()
      modifies this
      ensures Valid()
      ensures State() == Transition(old(State()), ACTIVATED)
      ensures active && activationKey == ACTIVATED
    {
      Invoke(ToggleTo(ACTIVATED));
    }

    /** `deactivate()` with the closure called, as its name promises. */
    method DeactivateAsIntended()
      requires Valid()
      modifies this
      ensures Valid()
      ensures State() == Transition(old(State()), DEACTIVATED)
      ensures !active && activationKey == DEACTIVATED
    {
      Invoke(ToggleTo(DEACTIVATED));
    }
  }

  /** An inactive activator stays inactive after the `activate()` of the source. */
  method ActivateIsInert() returns (before: bool, after: bool)
    ensures !before && !after
  {
    var a := new Activator(false);
    before := a.active;
    a.Activate();
    after := a.active;
  }

  /** An active activator stays active after the `deactivate()` of the source. */
  method DeactivateIsInert() returns (before: bool, after: bool)
    ensures before && after
  {
    var a := new Activator(true);
    before := a.active;
    a.Deactivate();
    after := a.active;
  }
}
