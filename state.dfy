// States of the game's state machine and the default behaviour of their hooks.
//
// A state is an object: the machine compares states by identity and the
// generic switch constructs a new one.  What a state's hooks do beyond the
// calls the machine can observe is not modelled; a call into a hook is a
// `HookCall` entry of the machine's trace.

module StateHooks {
  import opened Wrappers

  /** The concrete state classes of the game. */
  datatype StateKind = InitState | ShowHowToPlay | StartGame | StartRound | EndRound | EndGame

  /**
   * Which targets a state's CanSwitchState accepts.  `AnyTarget` is State's
   * own default, which every state class of the game keeps; `OnlyTo` stands
   * for a subclass whose override accepts targets of the listed classes only.
   */
  datatype SwitchRule = AnyTarget | OnlyTo(kinds: set<StateKind>)

  /** The entry arguments of a state: names to values. */
  type Arguments = map<string, string>

  class State {
    const kind: StateKind
    const rule: SwitchRule

    /** `new StateType()`: a state of class `k` with the default hooks. */
    constructor (k: StateKind)
      ensures kind == k && rule == AnyTarget
    {
      kind, rule := k, AnyTarget;
    }

    /**
     * A state standing for an instance of a subclass of class `k` that
     * overrides CanSwitchState to accept what `r` allows.  The game's own
     * state classes keep the default, so `new StateType()` is the other
     * constructor.
     */
    constructor WithRule(k: StateKind, r: SwitchRule)
      ensures kind == k && rule == r
    {
      kind, rule := k, r;
    }
  }

  /** A call into one of a state's hooks. */
  datatype HookCall =
    | Entered(state: State, args: Option<Arguments>)
    | Updated(state: State)
    | Exited(state: State)
    | CleanedUp(state: State)

  /** Whether a state following `rule` may be left for a state of class `k`. */
  predicate Allows(rule: SwitchRule, k: StateKind) {
    match rule
    case AnyTarget => true
    case OnlyTo(kinds) => k in kinds
  }

  /** CanSwitchState: may `s` be left for `target`? */
  predicate CanSwitchState(s: State, target: State) {
    Allows(s.rule, target.kind)
  }

  /** The default CanSwitchState accepts every target. */
  lemma DefaultAcceptsEveryTarget(s: State, target: State)
    requires s.rule == AnyTarget
    ensures CanSwitchState(s, target)
  {
  }

  /** The calls made by Enter: the default does nothing beyond being called. */
  function EnterCalls(s: State, args: Option<Arguments>): seq<HookCall>
  {
    [Entered(s, args)]
  }

  /** The calls made by Update: the default does nothing beyond being called. */
  function UpdateCalls(s: State): seq<HookCall>
  {
    [Updated(s)]
  }

  /** The calls made by CleanUp: the default does nothing beyond being called. */
  function CleanUpCalls(s: State): seq<HookCall>
  {
    [CleanedUp(s)]
  }

  /** The calls made by Exit: the default calls CleanUp and nothing else. */
  function ExitCalls(s: State): seq<HookCall>
  {
    [Exited(s)] + CleanUpCalls(s)
  }
}
