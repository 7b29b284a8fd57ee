// A state machine that runs one state at a time and switches between states
// when the running state allows it.

module StateMachines {
  import opened Wrappers
  import opened StateHooks

  /**
   * The hook calls a switch makes once it is accepted: Exit on the state
   * being left, if any, and then Enter on the new state.
   */
  function SwitchCalls(current: Option<State>, target: State, args: Option<Arguments>): (r: seq<HookCall>)
    ensures current.None? ==> r == [Entered(target, args)]
    ensures current.Some? ==> r == [Exited(current.value), CleanedUp(current.value), Entered(target, args)]
  {
    (if current.Some? then ExitCalls(current.value) else []) + EnterCalls(target, args)
  }

  /** Whether the running state `current` lets the machine switch to a state of class `k`. */
  predicate AcceptsKind(current: Option<State>, k: StateKind) {
    current.None? || Allows(current.value.rule, k)
  }

  /**
   * Leaving a state whose hooks are the defaults: its Exit runs once, the
   * CleanUp it calls runs once after it, the new state's Enter runs once after
   * that, and no Update runs.
   */
  lemma SwitchHookOrder(s: State, target: State, args: Option<Arguments>)
    ensures var r := SwitchCalls(Some(s), target, args);
      multiset(r)[Exited(s)] == 1 && multiset(r)[CleanedUp(s)] == 1 && multiset(r)[Entered(target, args)] == 1
    ensures var r := SwitchCalls(Some(s), target, args);
      forall i :: 0 <= i < |r| ==> !r[i].Updated?
    ensures var r := SwitchCalls(Some(s), target, args);
      forall i, j :: 0 <= i < |r| && 0 <= j < |r| && r[i] == Exited(s) && r[j] == CleanedUp(s) ==> i < j
    ensures var r := SwitchCalls(Some(s), target, args);
      forall j, k :: 0 <= j < |r| && 0 <= k < |r| && r[j] == CleanedUp(s) && r[k] == Entered(target, args) ==> j < k
  {
    var r := SwitchCalls(Some(s), target, args);
    assert r == [Exited(s)] + [CleanedUp(s)] + [Entered(target, args)];
  }

  class StateMachine {
    /** The state that is running, if any. */
    var currentState: Option<State>
    /** Every hook call the machine has made, oldest first. */
    var trace: seq<HookCall>

    constructor ()
      ensures currentState == None && trace == []
    {
      currentState, trace := None, [];
    }

    /** Whether the running state, if any, allows a switch to `target`. */
    predicate Accepts(target: State)
      reads this
    {
      currentState.None? || CanSwitchState(currentState.value, target)
    }

    /**
     * Switches to `target` with the entry arguments `args`, unless the
     * running state refuses; a refused switch changes nothing and calls no
     * hook.
     */
    method SetCurrentStateTo(target: State, args: Option<Arguments>) returns (switched: bool)
      modifies this
      ensures switched == old(Accepts(target))
      ensures old(currentState).None? ==> switched
      ensures !switched ==> currentState == old(currentState) && trace == old(trace)
      ensures switched ==> currentState == Some(target)
      ensures switched ==> trace == old(trace) + SwitchCalls(old(currentState), target, args)
    {
      if currentState.Some? {
        if CanSwitchState(currentState.value, target) {
          trace := trace + ExitCalls(currentState.value);
        } else {
          return false;
        }
      }
      currentState := Some(target);
      trace := trace + EnterCalls(target, args);
      return true;
    }

    /** Switches to `target` with no entry arguments. */
    method SetCurrentStateToWithoutArgs(target: State) returns (switched: bool)
      modifies this
      ensures switched == old(Accepts(target))
      ensures !switched ==> currentState == old(currentState) && trace == old(trace)
      ensures switched ==> currentState == Some(target)
      ensures switched ==> trace == old(trace) + SwitchCalls(old(currentState), target, None)
    {
      switched := SetCurrentStateTo(target, None);
    }

    /** Switches to a newly constructed state of class `k` with the entry arguments `args`. */
    method SetCurrentStateToType(k: StateKind, args: Option<Arguments>) returns (switched: bool)
      modifies this
      ensures switched == AcceptsKind(old(currentState), k)
      ensures !switched ==> currentState == old(currentState) && trace == old(trace)
      ensures switched ==> currentState.Some? && fresh(currentState.value)
      ensures switched ==> currentState.value.kind == k && currentState.value.rule == AnyTarget
      ensures switched ==> trace == old(trace) + SwitchCalls(old(currentState), currentState.value, args)
    {
      var target := new State(k);
      switched := SetCurrentStateTo(target, args);
    }

    /** Switches to a newly constructed state of class `k` with no entry arguments. */
    method SetCurrentStateToTypeWithoutArgs(k: StateKind) returns (switched: bool)
      modifies this
      ensures switched == AcceptsKind(old(currentState), k)
      ensures !switched ==> currentState == old(currentState) && trace == old(trace)
      ensures switched ==> currentState.Some? && fresh(currentState.value)
      ensures switched ==> currentState.value.kind == k && currentState.value.rule == AnyTarget
      ensures switched ==> trace == old(trace) + SwitchCalls(old(currentState), currentState.value, None)
    {
      switched := SetCurrentStateToType(k, None);
    }

    /** The running state, if any. */
    function GetCurrentState(): (r: Option<State>)
      reads this
      ensures r == currentState
    {
      currentState
    }

    /** Updates the running state, if any; with none it does nothing. */
    method UpdateState()
      modifies this
      ensures currentState == old(currentState)
      ensures currentState.None? ==> trace == old(trace)
      ensures currentState.Some? ==> trace == old(trace) + [Updated(currentState.value)]
    {
      if currentState.Some? {
        trace := trace + UpdateCalls(currentState.value);
      }
    }

    /** Whether the running state is of class `k`; false when no state runs. */
    function IsCurrentStateOfType(k: StateKind): (r: bool)
      reads this
      ensures r <==> currentState.Some? && currentState.value.kind == k
      ensures currentState.None? ==> !r
    {
      currentState.Some? && currentState.value.kind == k
    }
  }
}
