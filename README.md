# WordTiles core, modelled in Dafny

WordTiles is a small word game built on Unity. The player drags letter tiles
from a tray onto a row of slots. When the letters spell a dictionary word, it
scores one point per letter and the round ends. This project models the rules
behind the game, not its animation, audio or layout:

- **Dictionary** (`Trie`, `dictionary_tree.dfy`). A prefix tree of characters.
  Its nodes are mutated in place. The abstract value of a tree is the ghost set
  `Words` of the strings inserted so far. A ghost `Layout` records the path of
  every node, and `Describes` ties that layout to the live nodes.
- **Object pool** (`ObjectPool`, `pool.dfy`). A LIFO stack of released objects,
  with entries that may be null (`Option<T>`). The factory is code the pool
  cannot see, so each call to it takes the value it returns as a parameter.
  The calls into the factory and the hooks are recorded in `calls`, in order.
- **State machine** (`StateHooks`, `state.dfy`; `StateMachines`,
  `state_machine.dfy`). Runs one state at a time and switches when the running
  state accepts the target. States are objects. Every hook call the machine
  makes (Enter, Update, Exit, CleanUp) is appended to `trace`.
- **Game manager and main menu** (`Game`, `game.dfy`). The manager holds the
  unsigned 32-bit score and round and the dictionary, and raises change events.
  The menu shows the score and round labels and runs the submit and shuffle
  buttons.
- **Tiles** (`Tiles`, `tiles.dfy`). The tiles, the slots they are dropped on,
  the slot group that spells the word, and the tray that deals tiles from a
  weighted letter bag. `SlotRules` (`slot_rules.dfy`) states the slot rules on
  plain values. `LetterBag` (`letter_bag.dfy`) states the weighted bag and its
  shuffle.
- **End of round** (`EndRoundState`, `end_round.dfy`). On entry, this state
  asks for the end of the game after the last round, and for the next round
  otherwise.
- `GameConstants` (`constants.dfy`) holds `MAX_ROUNDS`,
  `NUMBER_OF_PLAYABLE_TILES` and unsigned 32-bit wrap-around addition.
  `Decimal` (`decimal.dfy`) holds the decimal text the labels use.
  `Wrappers` (`wrappers.dfy`) holds `Option` and `Result`.

Randomness is replaced by index parameters (`picks`, `pick`), each with its
range as a precondition. The lines of the word file are given as a
`seq<string>`.

## Model

| member | source | states |
|---|---|---|
| Trie.DictionaryTreeNode.constructor | WordTiles/Assets/Scripts/Words/DictionaryTree.cs:29-32 | a new node carries its letter; it is not a complete word and has no child map yet |
| Trie.DictionaryTreeNode.MarkAsCompleteWord | WordTiles/Assets/Scripts/Words/DictionaryTree.cs:46-49 | the flag is set and the children are untouched; nothing clears the flag, so marking again changes nothing |
| Trie.DictionaryTreeNode.AddChildLetter | WordTiles/Assets/Scripts/Words/DictionaryTree.cs:65-81 | an existing child is returned and the map is unchanged, so a second call returns the same node and adds nothing; otherwise a fresh childless node whose letter is the key is added under that key, and the map is allocated if it was missing |
| Trie.DictionaryTreeNode.GetChildNode | WordTiles/Assets/Scripts/Words/DictionaryTree.cs:88-98 | null exactly when there is no child map or no such key; otherwise the child stored under that key |
| Trie.DictionaryTreeNode.IsCompleteWord | WordTiles/Assets/Scripts/Words/DictionaryTree.cs:55-58 | whether the node ends an inserted word; DoesWordExist answers with it at the node its walk reaches |
| Trie.PathEdges | WordTiles/Assets/Scripts/Words/DictionaryTree.cs:150-158 | every step of a path in the tree is an edge in the tree, so a missing edge means that no longer word is in the tree |
| Trie.Descend | WordTiles/Assets/Scripts/Words/DictionaryTree.cs:122-125 | one cursor step of AddWord reaches the node of the path extended by the letter; all nodes it adds are fresh, and the layout still describes the tree |
| Trie.Walk | WordTiles/Assets/Scripts/Words/DictionaryTree.cs:120-126 | the cursor loop ends at the node of the whole word; the nodes it adds are fresh, and the word set is the same as before |
| Trie.DictionaryTree.constructor | WordTiles/Assets/Scripts/Words/DictionaryTree.cs:109 | a new tree holds no word, not even "" (the root's flag starts false); the root letter is '\0' |
| Trie.DictionaryTree.MarkWord | WordTiles/Assets/Scripts/Words/DictionaryTree.cs:128 | marking the node the cursor reached adds exactly that word to the set of words |
| Trie.DictionaryTree.AddWord | WordTiles/Assets/Scripts/Words/DictionaryTree.cs:117-129 | the word set grows by exactly the given word, so no earlier word is lost and AddWord("") marks the root; only fresh nodes are added |
| Trie.DictionaryTree.AddWordChars | WordTiles/Assets/Scripts/Words/DictionaryTree.cs:135-138 | the char[] overload adds the string of the array's characters, the same as AddWord; a null array adds "" |
| Trie.DictionaryTree.DoesWordExist | WordTiles/Assets/Scripts/Words/DictionaryTree.cs:145-162 | true exactly when the word was inserted: after AddWord(w) it is true for w, and a prefix of an inserted word is false unless it was inserted itself; it changes nothing |
| Trie.DictionaryTree.DoesWordExistChars | WordTiles/Assets/Scripts/Words/DictionaryTree.cs:169-172 | the char[] overload answers as DoesWordExist does on the same characters; for a null array it answers whether "" is a word |
| Trie.CharsString | WordTiles/Assets/Scripts/Words/DictionaryTree.cs:137 | `new string(chars)` holds the array's characters in order, and is "" for a null array |
| ObjectPool.Creations | WordTiles/Assets/Scripts/Util/Pool.cs:102-105 | one factory call per item pushed, in order |
| ObjectPool.DropNullTop | WordTiles/Assets/Scripts/Util/Pool.cs:133-136 | discarding nulls from the top leaves a prefix whose top is live; the removed entries are all null; the result is empty exactly when every entry was null |
| ObjectPool.FetchResult | WordTiles/Assets/Scripts/Util/Pool.cs:127-158 | an empty stack gives the factory's item; a non-empty stack of nulls only gives the Peek failure; otherwise the result is a live item taken from the stack |
| ObjectPool.FetchRest | WordTiles/Assets/Scripts/Util/Pool.cs:129-143 | Fetch leaves a strict prefix of a non-empty stack, and an empty stack stays empty |
| ObjectPool.ReleaseThenFetch | WordTiles/Assets/Scripts/Util/Pool.cs:133-142 | after a live object is released, Fetch returns that same object and restores the stack as it was before the release (LIFO) |
| ObjectPool.FetchSkipsNullTop | WordTiles/Assets/Scripts/Util/Pool.cs:133-136 | a null on top of a stack that still holds a live object does not change what Fetch returns or leaves |
| ObjectPool.Pool.constructor | WordTiles/Assets/Scripts/Util/Pool.cs:70-72 | a pool with no hooks, an empty stack and the given initial size |
| ObjectPool.Pool.WithHooks | WordTiles/Assets/Scripts/Util/Pool.cs:82-93 | a pool with exactly the hooks given, an empty stack and the given initial size |
| ObjectPool.Pool.Init | WordTiles/Assets/Scripts/Util/Pool.cs:98-106 | the stack grows by exactly `initialPoolSize` items from the factory, pushed in order above the existing ones, which are kept |
| ObjectPool.Pool.Clear | WordTiles/Assets/Scripts/Util/Pool.cs:111-121 | removes nothing and calls no hook, because the loop guard `Count < 0` never holds |
| ObjectPool.Pool.Fetch | WordTiles/Assets/Scripts/Util/Pool.cs:127-158 | returns FetchResult and leaves FetchRest; on an empty stack the factory is called and the stack stays empty; the fetch hook, when present, runs on the item handed out; a failure calls nothing |
| ObjectPool.Pool.Release | WordTiles/Assets/Scripts/Util/Pool.cs:164-176 | a null changes nothing; a live object goes on top, after the release hook if there is one |
| StateHooks.State.constructor | WordTiles/Assets/Scripts/StateMachine/StateMachine.cs:30-33 | `new T()` makes a state of class T that keeps the default CanSwitchState |
| StateHooks.State.WithRule | WordTiles/Assets/Scripts/StateMachine/State.cs:33-36 | a state of a class whose CanSwitchState override accepts the classes the rule lists |
| StateHooks.DefaultAcceptsEveryTarget | WordTiles/Assets/Scripts/StateMachine/State.cs:33-36 | a state that keeps the default CanSwitchState accepts every target, so it can always be switched away from |
| StateHooks.CanSwitchState | WordTiles/Assets/Scripts/StateMachine/State.cs:33-36 | the virtual CanSwitchState: whether a state may be left for the target, decided by the class's rule; the default rule accepts every target (DefaultAcceptsEveryTarget) |
| StateHooks.EnterCalls | WordTiles/Assets/Scripts/StateMachine/State.cs:13 | the default Enter records its own call with its arguments and calls nothing else |
| StateHooks.UpdateCalls | WordTiles/Assets/Scripts/StateMachine/State.cs:18 | the default Update records its own call and calls nothing else |
| StateHooks.ExitCalls | WordTiles/Assets/Scripts/StateMachine/State.cs:23-26 | the default Exit records its own call and then calls CleanUp, and nothing else |
| StateHooks.CleanUpCalls | WordTiles/Assets/Scripts/StateMachine/State.cs:41 | the default CleanUp records its own call and calls nothing else |
| StateMachines.SwitchCalls | WordTiles/Assets/Scripts/StateMachine/StateMachine.cs:56-70 | an accepted switch calls Exit and the CleanUp the default Exit makes on the old state, if there is one, and then Enter on the new state with the arguments; the default hooks call nothing else |
| StateMachines.SwitchHookOrder | WordTiles/Assets/Scripts/StateMachine/State.cs:23-26 | leaving a state with the default hooks runs its Exit once, the CleanUp that Exit calls once and after it, then the new state's Enter once, and never Update |
| StateMachines.StateMachine.constructor | WordTiles/Assets/Scripts/StateMachine/StateMachine.cs:12 | a new machine runs no state and has made no hook call |
| StateMachines.StateMachine.SetCurrentStateTo | WordTiles/Assets/Scripts/StateMachine/StateMachine.cs:51-71 | true exactly when there is no running state or it accepts the target; with no running state the switch always happens; a refused switch changes nothing and runs no hook; an accepted one makes the target current and runs Exit, then Enter |
| StateMachines.StateMachine.SetCurrentStateToWithoutArgs | WordTiles/Assets/Scripts/StateMachine/StateMachine.cs:40-43 | the switch as SetCurrentStateTo, with null entry arguments |
| StateMachines.StateMachine.SetCurrentStateToType | WordTiles/Assets/Scripts/StateMachine/StateMachine.cs:30-33 | switches to a freshly constructed state of the requested class, on the same acceptance rule |
| StateMachines.StateMachine.SetCurrentStateToTypeWithoutArgs | WordTiles/Assets/Scripts/StateMachine/StateMachine.cs:19-22 | switches to a freshly constructed state of the requested class, with null entry arguments |
| StateMachines.StateMachine.GetCurrentState | WordTiles/Assets/Scripts/StateMachine/StateMachine.cs:77-80 | the running state, if any |
| StateMachines.StateMachine.UpdateState | WordTiles/Assets/Scripts/StateMachine/StateMachine.cs:85-91 | with no running state nothing happens; otherwise only the running state's Update is called, and the state does not change |
| StateMachines.StateMachine.IsCurrentStateOfType | WordTiles/Assets/Scripts/StateMachine/StateMachine.cs:98-101 | true exactly when a state runs and it is of the class asked for; false when no state runs |
| GameConstants.WrappingAdd | WordTiles/Assets/Scripts/StateMachine/WordTilesGameManager.cs:180-183 | unchecked unsigned 32-bit addition: the exact sum below 2^32, and the sum minus 2^32 past it |
| Decimal.DigitChar | WordTiles/Assets/Scripts/Menus/WordTilesMainMenu.cs:151 | the character of a digit is a digit character that reads back as that digit |
| Decimal.DecimalString | WordTiles/Assets/Scripts/Menus/WordTilesMainMenu.cs:151 | `ToString()` of an unsigned number is a non-empty run of digits with no leading zero |
| Decimal.ValueOfDecimalString | WordTiles/Assets/Scripts/Menus/WordTilesMainMenu.cs:151 | reading back the decimal text of a number gives the number |
| Decimal.ValueOfNoLeadingZero | WordTiles/Assets/Scripts/Menus/WordTilesMainMenu.cs:151 | a digit string that does not start with 0 denotes at least one |
| Decimal.DecimalStringUnique | WordTiles/Assets/Scripts/Menus/WordTilesMainMenu.cs:151 | a non-empty digit string without a leading zero is the decimal text of the number it denotes, so the decimal text is the only way to write a number |
| Decimal.DecimalStringInjective | WordTiles/Assets/Scripts/Menus/WordTilesMainMenu.cs:151 | different numbers have different decimal texts |
| Game.ToUInt | WordTiles/Assets/Scripts/Menus/WordTilesMainMenu.cs:176 | the `(uint)` cast of a word length is exact for every length below 2^32 |
| Game.ScoreLabel | WordTiles/Assets/Scripts/Menus/WordTilesMainMenu.cs:151 | the label is "SCORE: " followed by digits, without a leading zero, whose value is the score |
| Game.ScoreLabelExact | WordTiles/Assets/Scripts/Menus/WordTilesMainMenu.cs:151 | the score label's form pins it down: any string of that form for a score is that score's label |
| Game.ScoreLabelInjective | WordTiles/Assets/Scripts/Menus/WordTilesMainMenu.cs:151 | different scores show different labels |
| Game.RoundLabel | WordTiles/Assets/Scripts/Menus/WordTilesMainMenu.cs:160 | the label is "ROUND: ", then digits without a leading zero whose value is the round, then "/1" |
| Game.RoundLabelExact | WordTiles/Assets/Scripts/Menus/WordTilesMainMenu.cs:160 | the round label's form pins it down: any string of that form for a round is that round's label |
| Game.ResetLabels | WordTiles/Assets/Scripts/StateMachine/WordTilesGameManager.cs:139-142 | after a reset the labels read "SCORE: 0" and "ROUND: 0/1" |
| Game.PopulateWords | WordTiles/Assets/Scripts/StateMachine/WordTilesGameManager.cs:100-112 | every line is added to the dictionary, so afterwards every loaded line is a word; the earlier words are kept |
| Game.NewDictionary | WordTiles/Assets/Scripts/StateMachine/WordTilesGameManager.cs:100-112 | a fresh dictionary whose words are exactly the loaded lines |
| Game.WordTilesGameManager.constructor | WordTiles/Assets/Scripts/StateMachine/WordTilesGameManager.cs:88-94 | the dictionary holds exactly the loaded lines; score and round are zero; there is no menu and no listener |
| Game.WordTilesGameManager.SetRound | WordTiles/Assets/Scripts/StateMachine/WordTilesGameManager.cs:114-122 | the round becomes the value, and the listener, if any, shows that round's label; nothing else changes |
| Game.WordTilesGameManager.SetScore | WordTiles/Assets/Scripts/StateMachine/WordTilesGameManager.cs:124-132 | the score becomes the value, and the listener, if any, shows that score's label; nothing else changes |
| Game.WordTilesGameManager.Reset | WordTiles/Assets/Scripts/StateMachine/WordTilesGameManager.cs:139-148 | score and round become zero, each change event is raised with zero, and the main menu, if any, is reset |
| Game.WordTilesGameManager.GetScore | WordTiles/Assets/Scripts/StateMachine/WordTilesGameManager.cs:154-157 | the current score |
| Game.WordTilesGameManager.IncrementRound | WordTiles/Assets/Scripts/StateMachine/WordTilesGameManager.cs:162-165 | the round becomes the old round plus one, wrapping at 2^32; the score is left alone |
| Game.WordTilesGameManager.IsOnLastRound | WordTiles/Assets/Scripts/StateMachine/WordTilesGameManager.cs:171-174 | true exactly when the round equals MAX_ROUNDS (1) |
| Game.WordTilesGameManager.AddToScore | WordTiles/Assets/Scripts/StateMachine/WordTilesGameManager.cs:180-183 | the score becomes the old score plus the amount, wrapping at 2^32; the round is left alone |
| Game.WordTilesGameManager.GetMainMenu | WordTiles/Assets/Scripts/StateMachine/WordTilesGameManager.cs:189-192 | the stored main menu |
| Game.WordTilesGameManager.SetMainMenu | WordTiles/Assets/Scripts/StateMachine/WordTilesGameManager.cs:198-201 | the main menu becomes the value |
| Game.WordTilesGameManager.DoesWordExist | WordTiles/Assets/Scripts/StateMachine/WordTilesGameManager.cs:208-211 | exactly the dictionary's answer: true when the word is among the loaded words |
| Game.ResetThenOneRound | WordTiles/Assets/Scripts/StateMachine/WordTilesGameManager.cs:139-174 | a manager in round 0, where Reset leaves it, is not on its last round, and the round IncrementRound then moves it to is the last |
| Game.EmptyNeverScores | WordTiles/Assets/Scripts/Menus/WordTilesMainMenu.cs:170 | the empty word never scores, even when "" is in the dictionary |
| Game.WordTilesMainMenu.constructor | WordTiles/Assets/Scripts/Menus/WordTilesMainMenu.cs:25-62 | a menu wired to its slot group, tray, manager and state machine, with both buttons interactable |
| Game.WordTilesMainMenu.Awake | WordTiles/Assets/Scripts/Menus/WordTilesMainMenu.cs:109-116 | the menu becomes the listener of both change events |
| Game.WordTilesMainMenu.Reset | WordTiles/Assets/Scripts/Menus/WordTilesMainMenu.cs:121-125 | every slot is empty, and every tray tile is hidden, not interactable and without a detach callback; tile letters are unchanged |
| Game.WordTilesMainMenu.OnScoreChanged | WordTiles/Assets/Scripts/Menus/WordTilesMainMenu.cs:149-152 | the score label shows the new score |
| Game.WordTilesMainMenu.OnRoundChanged | WordTiles/Assets/Scripts/Menus/WordTilesMainMenu.cs:158-161 | the round label shows the new round |
| Game.WordTilesMainMenu.OnSubmitButtonPressed | WordTiles/Assets/Scripts/Menus/WordTilesMainMenu.cs:166-185 | a non-empty word from the slots that is in the dictionary adds its length to the score, updates the label and requests EndRound; any other word changes neither score, label nor state |
| Game.WordTilesMainMenu.SubmitWord | WordTiles/Assets/Scripts/Menus/WordTilesMainMenu.cs:168-184 | the same rule on the given word: score plus length and an EndRound request exactly when the word is non-empty and in the dictionary, and no change otherwise |
| Game.WordTilesMainMenu.OnShuffleButtonPressed | WordTiles/Assets/Scripts/Menus/WordTilesMainMenu.cs:190-197 | while the tray is shuffling nothing changes; otherwise the slots are emptied and exactly one shuffle starts |
| Game.WordTilesMainMenu.EnableButtons | WordTiles/Assets/Scripts/Menus/WordTilesMainMenu.cs:203-207 | both buttons become interactable, or neither does, as the flag says |
| SlotRules.PlayableIffOccupiedPrefix | WordTiles/Assets/Scripts/Menus/WordTileSlotGroup.cs:114-131 | the slots are playable exactly when the occupied slots form a non-empty prefix of the row |
| SlotRules.EmptyIsNotPlayable | WordTiles/Assets/Scripts/Menus/WordTileSlotGroup.cs:114-148 | empty slots are never playable |
| SlotRules.RunLength | WordTiles/Assets/Scripts/Menus/WordTileSlotGroup.cs:157-168 | the number of occupied slots before the first empty one, counted from the left |
| SlotRules.LeadingLetters | WordTiles/Assets/Scripts/Menus/WordTileSlotGroup.cs:157-168 | the letters from slot 0 up to the first empty slot, one per slot |
| SlotRules.LowerAscii | WordTiles/Assets/Scripts/Menus/WordTileSlotGroup.cs:170 | A-Z are lower-cased and every other character is kept |
| SlotRules.Lower | WordTiles/Assets/Scripts/Menus/WordTileSlotGroup.cs:170 | lower-casing keeps the length and works letter by letter |
| SlotRules.PlayableWord | WordTiles/Assets/Scripts/Menus/WordTileSlotGroup.cs:154-171 | the word is the lower-cased letters from slot 0 up to the first empty slot, and is no longer than the row |
| SlotRules.PlayableWordEmpty | WordTiles/Assets/Scripts/Menus/WordTileSlotGroup.cs:157-168 | the word is empty exactly when slot 0 is empty |
| SlotRules.Occupied | WordTiles/Assets/Scripts/Menus/WordTileSlotGroup.cs:114-131 | the number of occupied slots is at most the number of slots |
| SlotRules.OccupiedOfPrefix | WordTiles/Assets/Scripts/Menus/WordTileSlotGroup.cs:114-131 | a row whose occupied slots are exactly the first k has k occupied slots |
| SlotRules.PlayableWordLength | WordTiles/Assets/Scripts/Menus/WordTileSlotGroup.cs:114-168 | on playable slots the word has one letter per occupied slot, and at least one |
| Tiles.WordTile.constructor | WordTiles/Assets/Scripts/Menus/WordTile.cs:60 | a tile with its letter that is hidden, not interactable and without a detach callback |
| Tiles.WordTile.SetLetter | WordTiles/Assets/Scripts/Menus/WordTile.cs:111-115 | the tile's letter becomes the value |
| Tiles.WordTile.GetLetter | WordTiles/Assets/Scripts/Menus/WordTile.cs:121-124 | the tile's letter |
| Tiles.WordTileSlot.constructor | WordTiles/Assets/Scripts/Menus/WordTileSlot.cs:12 | a new slot holds no tile |
| Tiles.WordTileSlot.SnapTileToSlot | WordTiles/Assets/Scripts/Menus/WordTileSlot.cs:20-29 | the tile becomes the attached tile, and its detach callback is this slot's DetachTile |
| Tiles.WordTileSlot.OnDrop | WordTiles/Assets/Scripts/Menus/WordTileSlot.cs:37-52 | a drop that is null, not interactable or the attached tile changes nothing; any other drop hands the previous tile, if any, back to the tray and attaches the dropped tile |
| Tiles.WordTileSlot.DetachTile | WordTiles/Assets/Scripts/Menus/WordTileSlot.cs:57-60 | the slot is always left empty, so a second call changes nothing |
| Tiles.WordTileSlot.DetachTileIf | WordTiles/Assets/Scripts/Menus/WordTileSlot.cs:66-72 | the slot is cleared exactly when the given tile is the attached one; otherwise nothing changes |
| Tiles.WordTileSlot.GetAttachedWordTile | WordTiles/Assets/Scripts/Menus/WordTileSlot.cs:78-81 | the attached tile, if any |
| Tiles.WordTileSlotGroup.constructor | WordTiles/Assets/Scripts/Menus/WordTileSlotGroup.cs:49 | a group over the given slots, left to right; the slots themselves are never replaced |
| Tiles.WordTileSlotGroup.Letters | WordTiles/Assets/Scripts/Menus/WordTileSlotGroup.cs:114-171 | what the slots hold, left to right: each slot's letter, or nothing for an empty slot |
| Tiles.WordTileSlotGroup.Reset | WordTiles/Assets/Scripts/Menus/WordTileSlotGroup.cs:102-108 | every slot is left empty |
| Tiles.WordTileSlotGroup.AreSlotsPlayable | WordTiles/Assets/Scripts/Menus/WordTileSlotGroup.cs:114-131 | true exactly when some slot is occupied and no empty slot lies left of an occupied one |
| Tiles.WordTileSlotGroup.AreSlotsEmpty | WordTiles/Assets/Scripts/Menus/WordTileSlotGroup.cs:137-148 | true exactly when no slot is occupied |
| Tiles.WordTileSlotGroup.GetPlayableWord | WordTiles/Assets/Scripts/Menus/WordTileSlotGroup.cs:154-171 | the lower-cased letters from slot 0 up to the first empty slot, no longer than the number of slots |
| Tiles.WordTileTray.constructor | WordTiles/Assets/Scripts/Menus/WordTileTray.cs:55-75 | a tray that is not shuffling and has an empty bag |
| Tiles.WordTileTray.AddCharacter | WordTiles/Assets/Scripts/Menus/WordTileTray.cs:145-151 | exactly `weight` copies of the letter are appended to the end of the bag, none for a weight below one; nothing else changes |
| Tiles.WordTileTray.AddWeightedLetters | WordTiles/Assets/Scripts/Menus/WordTileTray.cs:102-127 | each letter is appended with its weight, in the listed order |
| Tiles.WordTileTray.AddFirstEntries | WordTiles/Assets/Scripts/Menus/WordTileTray.cs:102-114 | the first 13 entries of the fill order are appended |
| Tiles.WordTileTray.AddLastEntries | WordTiles/Assets/Scripts/Menus/WordTileTray.cs:115-127 | the last 13 entries of the fill order are appended |
| Tiles.WordTileTray.ShuffleLetters | WordTiles/Assets/Scripts/Menus/WordTileTray.cs:130-137 | position a is swapped with the position picked for it, from left to right; the result keeps the bag's length and multiset |
| Tiles.WordTileTray.PopulateCharacters | WordTiles/Assets/Scripts/Menus/WordTileTray.cs:100-138 | the bag becomes the shuffle of the old bag plus the weighted letters, with the same multiset |
| Tiles.WordTileTray.GetRandomCharacter | WordTiles/Assets/Scripts/Menus/WordTileTray.cs:157-160 | the letter drawn is in the bag |
| Tiles.WordTileTray.Reset | WordTiles/Assets/Scripts/Menus/WordTileTray.cs:250-266 | every tile is hidden, not interactable and without a detach callback; letters are unchanged |
| Tiles.WordTileTray.IsShuffling | WordTiles/Assets/Scripts/Menus/WordTileTray.cs:272-275 | whether a shuffle is running |
| Tiles.WordTileTray.ShuffleInNewTiles | WordTiles/Assets/Scripts/Menus/WordTileTray.cs:281-288 | a shuffle starts only when none is running, and afterwards the flag is set |
| Tiles.WordTileTray.ShuffleInNewTilesCo | WordTiles/Assets/Scripts/Menus/WordTileTray.cs:167-216 | run to its end, every tile is shown and interactable with no detach callback, and the shuffling flag is cleared; each tile holds the bag letter picked at the last position of the list that names it, which is its own position when no tile is listed twice |
| Tiles.WordTileTray.ShowTiles | WordTiles/Assets/Scripts/Menus/WordTileTray.cs:172-199 | after the first loop every tile is active with the bag letter picked at the last position listing it, and is still not interactable |
| Tiles.WordTileTray.EnableTiles | WordTiles/Assets/Scripts/Menus/WordTileTray.cs:202-205 | after the second loop every tile is interactable, still active with no detach callback, and keeps the bag letter picked at the last position listing it |
| Tiles.WordTileTray.ReturnTile | WordTiles/Assets/Scripts/Menus/WordTileTray.cs:223-227 | a returned tile stops being interactable and loses its detach callback, and the call is appended to the log `returning` of ReturnTile calls |
| Tiles.PopulatedBag | WordTiles/Assets/Scripts/Menus/WordTileTray.cs:100-138 | a bag populated from empty holds 98 letters, each letter as often as its weight (E 12, A 9, ... Z 1) |
| Tiles.DrawnLetterIsWeighted | WordTiles/Assets/Scripts/Menus/WordTileTray.cs:100-160 | every letter drawn from a populated bag is one of the weighted letters |
| LetterBag.Repeat | WordTiles/Assets/Scripts/Menus/WordTileTray.cs:147-150 | w copies of the letter and nothing else |
| LetterBag.RepeatMultiset | WordTiles/Assets/Scripts/Menus/WordTileTray.cs:147-150 | w copies of a letter hold that letter w times and no other letter |
| LetterBag.FillOrder | WordTiles/Assets/Scripts/Menus/WordTileTray.cs:102-127 | the 26 letters with their weights, in the order they are added |
| LetterBag.FillFromMultiset | WordTiles/Assets/Scripts/Menus/WordTileTray.cs:102-127 | appending table entries adds each letter as often as the entries weigh it |
| LetterBag.WeightedLettersContents | WordTiles/Assets/Scripts/Menus/WordTileTray.cs:102-127 | the filled bag holds each letter exactly as often as its listed weight |
| LetterBag.WeightedLettersCount | WordTiles/Assets/Scripts/Menus/WordTileTray.cs:102-127 | the filled bag holds 98 letters |
| LetterBag.Swap | WordTiles/Assets/Scripts/Menus/WordTileTray.cs:133-136 | one swap exchanges two positions and keeps the rest and the multiset |
| LetterBag.Shuffled | WordTiles/Assets/Scripts/Menus/WordTileTray.cs:130-137 | any number of swap steps keeps the bag's length and multiset |
| EndRoundState.NextKind | WordTiles/Assets/Scripts/StateMachine/States/WordTileState_EndRound.cs:13-20 | EndGame exactly on the last round, and StartRound exactly otherwise |
| EndRoundState.NextKindOfRound | WordTiles/Assets/Scripts/StateMachine/States/WordTileState_EndRound.cs:13 | with MAX_ROUNDS = 1, the end of round 1 ends the game and any other round leads to the next round |
| EndRoundState.SwitchEntersOnce | WordTiles/Assets/Scripts/StateMachine/States/WordTileState_EndRound.cs:15-19 | a switch enters exactly one state, its target, and that entry comes last |
| EndRoundState.Enter | WordTiles/Assets/Scripts/StateMachine/States/WordTileState_EndRound.cs:10-21 | requests one switch, to EndGame on the last round and to StartRound otherwise, decided only by IsOnLastRound; score and round are unchanged |

## Left out

- Coroutines and animation are not modelled. Frame timing, `Time.deltaTime`, lerps, tweening, transforms and positions are all out.
- `ShuffleInNewTilesCo` is modelled as running to its end with no frames in between. The per-frame waits are dropped. It is a separate step of the model, and no model member calls it.
- `Tiles.WordTileTray.ShuffleInNewTiles` models only the `m_isShuffling` guard and the flag it sets (plus a count of started shuffles). In the source, `StartCoroutine` runs the coroutine up to its first `yield` inside the call. So on return the tray has already been reset and the first tile shown with a drawn letter, and with no tiles at all the whole shuffle has finished and the flag is false again. The model does not capture that part of the coroutine inside the call, so it ensures the flag is set, which the source does not keep for a tray with no tiles.
- `Game.WordTilesMainMenu.OnShuffleButtonPressed` ensures `wordTray.isShuffling` for the same reason: it calls `ShuffleInNewTiles`, and for a tray with no tiles the source's shuffle has already finished, with the flag cleared, when the handler returns.
- The completion callback of `ShuffleInNewTiles` and `ShuffleInNewTilesCo` is not modelled. The only caller in the core, `OnShuffleButtonPressed`, passes `null`.
- `ReturnTileCo` is modelled only by its synchronous first part, which takes the tile out of play (`ReturnTile`, which also appends the tile to `returning`, a log of the calls). The animation back to the tray, in which the tile becomes interactable again, is not modelled. The tray's `Reset` calls `StopAllCoroutines` on each tile (WordTileTray.cs:264), which cancels a return in flight; the log keeps such a tile.
- `PopTiles` and `PopTilesCo` of the slot group are not modelled. They are an animation.
- Audio, the drag handlers of `WordTile`, the letter label and `WordTile.Start` are not modelled. They are UI and sound.
- `Random.Range` and `System.Random` are replaced by index parameters, each with a range precondition.
- `string.ToLower` is modelled only for ASCII A-Z. Culture-sensitive lower-casing is out.
- Unity's overloaded `== null` for destroyed objects is not modelled. A null reference is `None`, and "destroyed" is not a separate case.
- Each change event of the manager has at most one listener (`scoreListener`, `roundListener`). Multicast delegates are not modelled.
- The pool's factory and hooks are code the model cannot see. The value the factory returns is a parameter, and hook calls are recorded in `calls`. A pool built without a factory (null factory) is not modelled.
- `ObjectPool.Pool.constructor`: a negative `argInitialPoolSize` is excluded by a precondition. In the source, `new Stack<PoolType>(argInitialPoolSize)` (Pool.cs line 92) throws `ArgumentOutOfRangeException` for a negative capacity, so no pool is built. The precondition keeps that exception case out of the model.
- `ObjectPool.Pool.WithHooks`: the same precondition on `argInitialPoolSize`, because the same `Stack` constructor throws there.
- The destroy hook has no entry in `calls`. Only `Clear` could call it, and `Clear` never enters its loop.
- `Resources.Load`, `TextAsset` and the stream reader are not modelled. The word file is given as its sequence of lines.
- A null string passed to the string overloads of `AddWord` or `DoesWordExist` throws `NullReferenceException` in the source, at the `foreach` of DictionaryTree.cs:122 and 150. The model's strings are never null, and no caller in the core passes null.
- Characters are Unicode scalar values in the model, while the C# strings and the trie key on UTF-16 code units. A character outside the Basic Multilingual Plane is one edge in the model and two in the source, and a string holding a lone surrogate cannot be written in the model. Membership in the dictionary agrees wherever both can represent the string.
- `NUMBER_OF_PLAYABLE_TILES` (8) is declared but does not bound the slot group or the tray. Their slots and tiles are serialized references set up in the scene, so the model leaves their number free.
- `Game.PopulateWords` is written as recursion over the lines, not as the source's `while` loop. The loop form needs a frame invariant saying that every node the loop adds is fresh, and that invariant is too costly to verify. The recursion also sits at module level and takes the tree as a parameter.
- `Game.WordTilesGameManager.constructor` does not call `Reset`. While the manager is being built it has no listener and no menu, so `Reset` amounts to setting the score and round to zero, and the constructor writes those two assignments directly.
- A null target state in `SetCurrentStateTo` is not modelled. Every target is an object.
- `IsCurrentStateOfType<T>` is modelled for the concrete state classes only. A query for a base type is out.
- The hooks of the concrete state classes (Init, ShowHowToPlay, StartGame, StartRound, EndGame) are not modelled. They are prefab and UI glue. StartRound.cs and EndGame.cs do not match the API around them:
  - StartRound uses a `MainMenuScreen` property that the manager does not declare.
  - EndGame overrides an `Enter()` without parameters that `State` does not declare.
- State switches made from inside an `Enter` hook are not modelled. `Enter` is a recorded call, not code that runs.
- The switch rule is a property of each `State` object, not of its class. The source overrides `CanSwitchState` per class. `State.WithRule` stands for an instance of a subclass that overrides it, while `new StateType()` for the game's own classes always gives the default rule. The model does not tie the two together, so two states of one kind can carry different rules.
- Entry argument values are modelled as strings (`map<string, string>`), not as arbitrary objects.
- The singletons reached through `Instance` are explicit references: the menu's `game` and `machine`, and `OnDrop`'s `tray` parameter.
- `WordTile.interactable`, `IsInteractable`, `SetOnDetachedCallback`, `SetGrandParent` and the tile's active flag are not declared in WordTile.cs. They are modelled as the fields `interactable`, `onDetached` and `active`. The re-parenting done by `SetGrandParent` is not modelled.
- `GetWordTileSlotGroup` and `GetWordTileTray` of the main menu are plain getters. The model reads the menu's `slotGroup` and `wordTray` fields directly.
- The `DetachTile(WordTile)` overload is named `DetachTileIf`, because Dafny has no overloading.
- `PopulateCharacters` is split into `AddWeightedLetters` (lines 102-127, itself split into `AddFirstEntries` and `AddLastEntries`) and `ShuffleLetters` (lines 130-137). `PopulateCharacters` calls the two in turn.
- The decision of `OnSubmitButtonPressed` is factored out as `SubmitWord`, which takes the word the slots spell.
- The tray's `Start` (lines 82-95) is not modelled. It is the scene setup that calls `PopulateCharacters` and `Reset`.
- The GameObject lifecycle of the manager and the menu (`Awake` ordering, scene loading) is not modelled. The starting values of the menu's labels and buttons (`Game.WordTilesMainMenu.constructor`) and of a tile's active, interactable and detach-callback state (`Tiles.WordTile.constructor`) come from the scene's serialized objects in the game; the model's starting values are its own choice.
