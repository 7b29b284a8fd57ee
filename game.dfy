// The game manager, which keeps the score, the round and the dictionary, and
// the main menu, which shows them and handles the submit and shuffle buttons.
//
// The two refer to each other (the manager raises events the menu listens to,
// the menu calls into the manager), so they live in one module.  The
// singletons the source reaches through `Instance` are explicit references
// here.  Each change event has at most one listener.

module Game {
  import opened Wrappers
  import opened Trie
  import opened StateHooks
  import opened StateMachines
  import opened Tiles
  import opened Decimal
  import opened GameConstants
  import opened SlotRules

  /** `n` cast to an unsigned 32-bit number: the low 32 bits are kept. */
  function ToUInt(n: nat): (r: uint32)
    ensures n < 0x1_0000_0000 ==> r as int == n
  {
    (n % 0x1_0000_0000) as uint32
  }

  /** The score label: "SCORE: " and then the score in decimal. */
  function ScoreLabel(score: uint32): (r: string)
    ensures |r| > 7 && r[..7] == "SCORE: "
    ensures AllDigits(r[7..]) && ValueOf(r[7..]) == score as int
    ensures |r| > 8 ==> r[7] != '0'
  {
    var digits := DecimalString(score as nat);
    ValueOfDecimalString(score as nat);
    assert ("SCORE: " + digits)[7..] == digits;
    "SCORE: " + digits
  }

  /** A string of the score label's form, for the score its digits denote, is that score's label. */
  lemma ScoreLabelExact(t: string, score: uint32)
    requires |t| > 7 && t[..7] == "SCORE: " && (|t| > 8 ==> t[7] != '0')
    requires AllDigits(t[7..]) && ValueOf(t[7..]) == score as int
    ensures t == ScoreLabel(score)
  {
    DecimalStringUnique(t[7..]);
    assert t == t[..7] + t[7..];
  }

  /** A string of the round label's form, for the round its digits denote, is that round's label. */
  lemma RoundLabelExact(t: string, round: uint32)
    requires |t| > 9 && t[..7] == "ROUND: " && t[|t| - 2..] == "/1" && (|t| > 10 ==> t[7] != '0')
    requires AllDigits(t[7..|t| - 2]) && ValueOf(t[7..|t| - 2]) == round as int
    ensures t == RoundLabel(round)
  {
    DecimalStringUnique(t[7..|t| - 2]);
    assert DecimalString(MAX_ROUNDS as nat) == "1";
    assert t == t[..7] + t[7..|t| - 2] + t[|t| - 2..];
  }

  /** Different scores get different score labels. */
  lemma ScoreLabelInjective(a: uint32, b: uint32)
    requires ScoreLabel(a) == ScoreLabel(b)
    ensures a == b
  {
    assert ScoreLabel(a)[7..] == ScoreLabel(b)[7..];
  }

  /** The round label: "ROUND: ", the round in decimal, "/" and the number of rounds. */
  function RoundLabel(round: uint32): (r: string)
    ensures |r| > 9 && r[..7] == "ROUND: " && r[|r| - 2..] == "/1"
    ensures AllDigits(r[7..|r| - 2]) && ValueOf(r[7..|r| - 2]) == round as int
    ensures |r| > 10 ==> r[7] != '0'
  {
    var digits := DecimalString(round as nat);
    ValueOfDecimalString(round as nat);
    assert DecimalString(MAX_ROUNDS as nat) == "1";
    var r := "ROUND: " + digits + "/" + DecimalString(MAX_ROUNDS as nat);
    assert r[7..|r| - 2] == digits;
    r
  }

  /** The labels after a reset. */
  lemma ResetLabels()
    ensures ScoreLabel(0) == "SCORE: 0" && RoundLabel(0) == "ROUND: 0/1"
  {
    assert DecimalString(0) == "0" && DecimalString(1) == "1";
  }

  /** The menu an optional reference names: none for null. */
  function MenuSet(m: Option<WordTilesMainMenu>): set<WordTilesMainMenu> {
    if m.Some? then {m.value} else {}
  }

  /** The set of loaded lines. */
  function LineSet(lines: seq<string>): set<string> {
    set l | l in lines
  }

  /** The loaded lines are the first line and the lines after it. */
  lemma LineSetCons(lines: seq<string>)
    requires |lines| > 0
    ensures LineSet(lines) == {lines[0]} + LineSet(lines[1..])
  {
    assert lines == [lines[0]] + lines[1..];
  }

  /** Adds every line to `tree`, in order: the first line, then the rest. */
  method PopulateWords(tree: DictionaryTree, lines: seq<string>)
    requires tree.Valid()
    modifies tree, tree.Repr
    ensures tree.Valid()
    ensures tree.Words == old(tree.Words) + LineSet(lines)
    decreases |lines|
  {
    if |lines| > 0 {
      tree.AddWord(lines[0]);
      PopulateWords(tree, lines[1..]);
      LineSetCons(lines);
    }
  }

  /** A new tree filled with `lines`. */
  method NewDictionary(lines: seq<string>) returns (tree: DictionaryTree)
    ensures fresh(tree) && tree.Valid() && tree.Words == LineSet(lines)
  {
    tree := new DictionaryTree();
    PopulateWords(tree, lines);
  }

  class WordTilesGameManager {
    /** The accumulated score, an unsigned 32-bit number. */
    var score: uint32
    /** The round being played, an unsigned 32-bit number. */
    var currentRound: uint32
    /** The active main menu, if one has been set. */
    var mainMenu: Option<WordTilesMainMenu>
    /** The listener of the score change event, if any. */
    var scoreListener: Option<WordTilesMainMenu>
    /** The listener of the round change event, if any. */
    var roundListener: Option<WordTilesMainMenu>
    /** The tree of playable words. */
    const dictionary: DictionaryTree

    ghost predicate Valid()
      reads dictionary, dictionary.Repr
    {
      dictionary.Valid()
    }

    /**
     * A new tree filled with `lines`, then the score and round reset to zero.
     * While the manager is being built nothing listens to it and it has no
     * menu, so its closing Reset amounts to setting both counters to zero.
     */
    constructor (lines: seq<string>)
      ensures Valid() && fresh(dictionary)
      ensures dictionary.Words == LineSet(lines)
      ensures score == 0 && currentRound == 0
      ensures mainMenu == None && scoreListener == None && roundListener == None
    {
      var tree := NewDictionary(lines);
      dictionary := tree;
      mainMenu, scoreListener, roundListener := None, None, None;
      score, currentRound := 0, 0;
    }

    /** Sets the round and tells the round listener, if any. */
    method SetRound(argRound: uint32)
      modifies this`currentRound, MenuSet(roundListener)`roundLabel
      ensures currentRound == argRound
      ensures roundListener.Some? ==> roundListener.value.roundLabel == RoundLabel(argRound)
    {
      currentRound := argRound;
      if roundListener.Some? {
        roundListener.value.OnRoundChanged(currentRound);
      }
    }

    /** Sets the score and tells the score listener, if any. */
    method SetScore(argScore: uint32)
      modifies this`score, MenuSet(scoreListener)`scoreLabel
      ensures score == argScore
      ensures scoreListener.Some? ==> scoreListener.value.scoreLabel == ScoreLabel(argScore)
    {
      score := argScore;
      if scoreListener.Some? {
        scoreListener.value.OnScoreChanged(score);
      }
    }

    /** Sets score and round to zero, telling the listeners, and resets the main menu, if any. */
    method Reset()
      modifies this`score, this`currentRound
      modifies MenuSet(scoreListener)`scoreLabel, MenuSet(roundListener)`roundLabel
      modifies if mainMenu.Some? then mainMenu.value.slotGroup.slots else []
      modifies if mainMenu.Some? then mainMenu.value.wordTray.wordTiles else []
      ensures score == 0 && currentRound == 0
      ensures scoreListener.Some? ==> scoreListener.value.scoreLabel == ScoreLabel(0)
      ensures roundListener.Some? ==> roundListener.value.roundLabel == RoundLabel(0)
      ensures mainMenu.Some? ==> mainMenu.value.IsReset()
      ensures mainMenu == old(mainMenu) && scoreListener == old(scoreListener) && roundListener == old(roundListener)
    {
      SetScore(0);
      SetRound(0);
      if mainMenu.Some? {
        mainMenu.value.Reset();
      }
    }

    function GetScore(): (r: uint32)
      reads this
      ensures r == score
    {
      score
    }

    /** Moves to the next round; the unsigned 32-bit addition wraps around. */
    method IncrementRound()
      modifies this`currentRound, MenuSet(roundListener)`roundLabel
      ensures currentRound == WrappingAdd(old(currentRound), 1)
      ensures roundListener.Some? ==> roundListener.value.roundLabel == RoundLabel(currentRound)
    {
      SetRound(WrappingAdd(currentRound, 1));
    }

    /** Whether the round being played is the last one. */
    function IsOnLastRound(): (r: bool)
      reads this
      ensures r <==> currentRound == MAX_ROUNDS
    {
      currentRound == MAX_ROUNDS
    }

    /** Adds to the score; the unsigned 32-bit addition wraps around. */
    method AddToScore(argAmountToAdd: uint32)
      modifies this`score, MenuSet(scoreListener)`scoreLabel
      ensures score == WrappingAdd(old(score), argAmountToAdd)
      ensures scoreListener.Some? ==> scoreListener.value.scoreLabel == ScoreLabel(score)
    {
      SetScore(WrappingAdd(score, argAmountToAdd));
    }

    function GetMainMenu(): (r: Option<WordTilesMainMenu>)
      reads this
      ensures r == mainMenu
    {
      mainMenu
    }

    method SetMainMenu(argMainMenu: Option<WordTilesMainMenu>)
      modifies this`mainMenu
      ensures mainMenu == argMainMenu
    {
      mainMenu := argMainMenu;
    }

    /** Whether `argWord` is a playable word: exactly the dictionary's answer. */
    method DoesWordExist(argWord: string) returns (found: bool)
      requires Valid()
      ensures found <==> argWord in dictionary.Words
    {
      found := dictionary.DoesWordExist(argWord);
    }
  }

  /**
   * A manager in the round Reset leaves it in is not on its last round, and
   * the round IncrementRound moves it to is the last one.
   */
  lemma ResetThenOneRound(game: WordTilesGameManager)
    requires game.currentRound == 0
    ensures !game.IsOnLastRound()
    ensures WrappingAdd(game.currentRound, 1) == MAX_ROUNDS
  {
  }

  /** Whether submitting `w` scores: a non-empty word the dictionary holds. */
  predicate IsValidSubmission(w: string, words: set<string>) {
    w != "" && w in words
  }

  /** The empty word never scores, whatever the dictionary holds. */
  lemma EmptyNeverScores(words: set<string>)
    ensures !IsValidSubmission("", words)
  {
  }

  class WordTilesMainMenu {
    var roundLabel: string
    var scoreLabel: string
    var submitInteractable: bool
    var shuffleInteractable: bool
    /** The group of tile slots. */
    const slotGroup: WordTileSlotGroup
    /** The tray that holds the playable tiles. */
    const wordTray: WordTileTray
    /** The game manager. */
    const game: WordTilesGameManager
    /** The game's state machine. */
    const machine: StateMachine

    /** A menu wired to its parts. The empty labels and enabled buttons it starts with stand for the
        scene's serialized objects and are a modelling choice. */
    constructor (argSlotGroup: WordTileSlotGroup, argWordTray: WordTileTray,
                 argGame: WordTilesGameManager, argMachine: StateMachine)
      ensures slotGroup == argSlotGroup && wordTray == argWordTray
      ensures game == argGame && machine == argMachine
      ensures roundLabel == "" && scoreLabel == "" && submitInteractable && shuffleInteractable
    {
      slotGroup, wordTray, game, machine := argSlotGroup, argWordTray, argGame, argMachine;
      roundLabel, scoreLabel := "", "";
      submitInteractable, shuffleInteractable := true, true;
    }

    /** Listens to the manager's score and round changes. */
    method Awake()
      modifies game`scoreListener, game`roundListener
      ensures game.scoreListener == Some(this) && game.roundListener == Some(this)
    {
      game.scoreListener := Some(this);
      game.roundListener := Some(this);
    }

    /** The slots are empty and the tray's tiles hidden, not interactable and without a detach callback. */
    ghost predicate IsReset()
      reads slotGroup.slots, slotGroup.AttachedTiles(), wordTray.wordTiles
    {
      && (forall i :: 0 <= i < |slotGroup.slots| ==> slotGroup.slots[i].attachedTile == None)
      && AllEmpty(slotGroup.Letters())
      && forall i :: 0 <= i < |wordTray.wordTiles| ==>
           !wordTray.wordTiles[i].active && !wordTray.wordTiles[i].interactable &&
           wordTray.wordTiles[i].onDetached == None
    }

    /** Empties the slots and hides the tray's tiles. */
    method Reset()
      modifies slotGroup.slots, wordTray.wordTiles
      ensures IsReset()
      ensures forall i :: 0 <= i < |wordTray.wordTiles| ==>
        wordTray.wordTiles[i].letter == old(wordTray.wordTiles[i].letter)
    {
      slotGroup.Reset();
      wordTray.Reset();
    }

    method OnScoreChanged(argScore: uint32)
      modifies this`scoreLabel
      ensures scoreLabel == ScoreLabel(argScore)
    {
      scoreLabel := ScoreLabel(argScore);
    }

    method OnRoundChanged(argRound: uint32)
      modifies this`roundLabel
      ensures roundLabel == RoundLabel(argRound)
    {
      roundLabel := RoundLabel(argRound);
    }

    /**
     * Submits the word the slots spell.  A valid word adds its length to the
     * score and asks the state machine for the end of the round; any other
     * word changes nothing.
     */
    method OnSubmitButtonPressed()
      requires game.Valid()
      modifies game`score, MenuSet(game.scoreListener)`scoreLabel, machine
      ensures game.Valid()
      ensures var w := old(PlayableWord(slotGroup.Letters()));
        IsValidSubmission(w, old(game.dictionary.Words)) ==>
          game.score == WrappingAdd(old(game.score), ToUInt(|w|))
      ensures var w := old(PlayableWord(slotGroup.Letters()));
        IsValidSubmission(w, old(game.dictionary.Words)) && game.scoreListener.Some? ==>
          game.scoreListener.value.scoreLabel == ScoreLabel(game.score)
      ensures var w := old(PlayableWord(slotGroup.Letters()));
        IsValidSubmission(w, old(game.dictionary.Words)) && AcceptsKind(old(machine.currentState), EndRound) ==>
          machine.currentState.Some? && fresh(machine.currentState.value) &&
          machine.currentState.value.kind == EndRound &&
          machine.trace == old(machine.trace) + SwitchCalls(old(machine.currentState), machine.currentState.value, None)
      ensures var w := old(PlayableWord(slotGroup.Letters()));
        IsValidSubmission(w, old(game.dictionary.Words)) && !AcceptsKind(old(machine.currentState), EndRound) ==>
          machine.currentState == old(machine.currentState) && machine.trace == old(machine.trace)
      ensures var w := old(PlayableWord(slotGroup.Letters()));
        !IsValidSubmission(w, old(game.dictionary.Words)) ==>
          game.score == old(game.score) && unchanged(old(MenuSet(game.scoreListener))) && unchanged(machine)
    {
      var tileWord := slotGroup.GetPlayableWord();
      assert slotGroup.Letters() == old(slotGroup.Letters());
      SubmitWord(tileWord);
    }

    /** The submit rule OnSubmitButtonPressed applies to the word `tileWord` the slots spell. */
    method SubmitWord(tileWord: string)
      requires game.Valid()
      modifies game`score, MenuSet(game.scoreListener)`scoreLabel, machine
      ensures game.Valid()
      ensures IsValidSubmission(tileWord, game.dictionary.Words) ==>
        game.score == WrappingAdd(old(game.score), ToUInt(|tileWord|))
      ensures IsValidSubmission(tileWord, game.dictionary.Words) && game.scoreListener.Some? ==>
        game.scoreListener.value.scoreLabel == ScoreLabel(game.score)
      ensures IsValidSubmission(tileWord, game.dictionary.Words) && AcceptsKind(old(machine.currentState), EndRound) ==>
        machine.currentState.Some? && fresh(machine.currentState.value) &&
        machine.currentState.value.kind == EndRound &&
        machine.trace == old(machine.trace) + SwitchCalls(old(machine.currentState), machine.currentState.value, None)
      ensures IsValidSubmission(tileWord, game.dictionary.Words) && !AcceptsKind(old(machine.currentState), EndRound) ==>
        machine.currentState == old(machine.currentState) && machine.trace == old(machine.trace)
      ensures !IsValidSubmission(tileWord, game.dictionary.Words) ==>
        game.score == old(game.score) && unchanged(old(MenuSet(game.scoreListener))) && unchanged(machine)
    {
      var found := false;
      if tileWord != "" {
        found := game.DoesWordExist(tileWord);
      }
      if found {
        game.AddToScore(ToUInt(|tileWord|));
        assert game.Valid();
        var switched := machine.SetCurrentStateToTypeWithoutArgs(EndRound);
      }
    }

    /** Unless the tray is shuffling, empties the slots and starts a shuffle. */
    method OnShuffleButtonPressed()
      modifies slotGroup.slots, wordTray`isShuffling, wordTray`shufflesStarted
      ensures wordTray.isShuffling
      ensures old(wordTray.isShuffling) ==>
        wordTray.shufflesStarted == old(wordTray.shufflesStarted) &&
        forall i :: 0 <= i < |slotGroup.slots| ==> slotGroup.slots[i].attachedTile == old(slotGroup.slots[i].attachedTile)
      ensures !old(wordTray.isShuffling) ==>
        wordTray.shufflesStarted == old(wordTray.shufflesStarted) + 1 && AllEmpty(slotGroup.Letters())
    {
      if !wordTray.IsShuffling() {
        slotGroup.Reset();
        wordTray.ShuffleInNewTiles();
      }
    }

    /** Makes both buttons interactable, or neither. */
    method EnableButtons(argEnable: bool)
      modifies this`submitInteractable, this`shuffleInteractable
      ensures submitInteractable == argEnable && shuffleInteractable == argEnable
    {
      submitInteractable := argEnable;
      shuffleInteractable := argEnable;
    }
  }
}
