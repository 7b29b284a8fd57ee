// The end-of-round state: on entry it asks the state machine for the end of
// the game after the last round, and for the next round otherwise.

module EndRoundState {
  import opened Wrappers
  import opened StateHooks
  import opened StateMachines
  import opened GameConstants
  import opened Game

  /** The class of state the end of a round leads to: the end of the game after the last round. */
  function NextKind(lastRound: bool): (k: StateKind)
    ensures k == EndGame <==> lastRound
    ensures k == StartRound <==> !lastRound
  {
    if lastRound then EndGame else StartRound
  }

  /** The end of a round leads to the end of the game exactly when round `MAX_ROUNDS` was played. */
  lemma NextKindOfRound(round: uint32)
    ensures NextKind(round == MAX_ROUNDS) == EndGame <==> round as int == 1
    ensures NextKind(round == MAX_ROUNDS) == StartRound <==> round as int != 1
  {
  }

  /** A switch enters exactly one state, and it is the target, entered last with no arguments. */
  lemma SwitchEntersOnce(current: Option<State>, target: State)
    ensures var r := SwitchCalls(current, target, None);
      |r| >= 1 && r[|r| - 1] == Entered(target, None) &&
      forall i :: 0 <= i < |r| - 1 ==> !r[i].Entered?
  {
    var r := SwitchCalls(current, target, None);
    if current.Some? {
      assert r == [Exited(current.value), CleanedUp(current.value), Entered(target, None)];
    } else {
      assert r == [Entered(target, None)];
    }
  }

  /**
   * Enter: requests one switch, to a new EndGame state when the game is on its
   * last round and to a new StartRound state otherwise.  The score and the
   * round are left as they are.
   */
  method Enter(game: WordTilesGameManager, machine: StateMachine)
    modifies machine
    ensures game.score == old(game.score) && game.currentRound == old(game.currentRound)
    ensures var k := NextKind(old(game.IsOnLastRound()));
      !AcceptsKind(old(machine.currentState), k) ==>
        machine.currentState == old(machine.currentState) && machine.trace == old(machine.trace)
    ensures var k := NextKind(old(game.IsOnLastRound()));
      AcceptsKind(old(machine.currentState), k) ==>
        machine.currentState.Some? && fresh(machine.currentState.value) &&
        machine.currentState.value.kind == k && machine.currentState.value.rule == AnyTarget &&
        machine.trace == old(machine.trace) + SwitchCalls(old(machine.currentState), machine.currentState.value, None)
  {
    var switched;
    if game.IsOnLastRound() {
      switched := machine.SetCurrentStateToTypeWithoutArgs(EndGame);
    } else {
      switched := machine.SetCurrentStateToTypeWithoutArgs(StartRound);
    }
  }
}
