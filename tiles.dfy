// The letter tiles, the slots they are dropped on, the group of slots that
// spells the word and the tray the tiles are dealt from.
//
// A slot hands a replaced tile back to the tray and the tray's tiles register a
// slot as their detach callback, so the four classes live in one module.
// A null reference is `None`.  Randomness is replaced by index parameters.

module Tiles {
  import opened Wrappers
  import opened SlotRules
  import opened LetterBag

  /** The tile an optional reference names, if any. */
  function TileSet(t: Option<WordTile>): set<WordTile> {
    if t.Some? then {t.value} else {}
  }

  /** The letter on an optional tile; `None` for no tile. */
  function TileLetter(t: Option<WordTile>): Option<char>
    reads TileSet(t)
  {
    if t.Some? then Some(t.value.letter) else None
  }

  class WordTile {
    /** The letter the tile shows. */
    var letter: char
    /** Whether the tile can be picked up and dropped on a slot. */
    var interactable: bool
    /** Whether the tile's game object is active, that is shown. */
    var active: bool
    /** The slot whose DetachTile is the tile's detach callback, if any. */
    var onDetached: Option<WordTileSlot>

    /** A tile showing `argLetter`. It starts hidden, not interactable and with no detach callback;
        in the game these come from the scene's serialized objects, so the starting values are a modelling choice. */
    constructor (argLetter: char)
      ensures letter == argLetter && !interactable && !active && onDetached == None
    {
      letter, interactable, active, onDetached := argLetter, false, false, None;
    }

    method SetLetter(argLetterToSet: char)
      modifies this`letter
      ensures letter == argLetterToSet
    {
      letter := argLetterToSet;
    }

    function GetLetter(): (r: char)
      reads this
      ensures r == letter
    {
      letter
    }
  }

  class WordTileSlot {
    /** The tile on the slot, if any. */
    var attachedTile: Option<WordTile>

    constructor ()
      ensures attachedTile == None
    {
      attachedTile := None;
    }

    /** Attaches `argTile` and makes this slot's DetachTile its detach callback. */
    method SnapTileToSlot(argTile: WordTile)
      modifies this`attachedTile, argTile`onDetached
      ensures attachedTile == Some(argTile) && argTile.onDetached == Some(this)
    {
      attachedTile := Some(argTile);
      argTile.onDetached := Some(this);
    }

    /** Whether a drop of `tile` is taken: a tile, not the one already attached, that is interactable. */
    predicate TakesDrop(tile: Option<WordTile>)
      reads this, TileSet(tile)
    {
      tile != attachedTile && tile.Some? && tile.value.interactable
    }

    /**
     * Handles a drop of `tile`.  A drop that is taken hands the tile that was
     * on the slot, if any, back to `tray` and then attaches the dropped one;
     * any other drop changes nothing.
     */
    method OnDrop(tile: Option<WordTile>, tray: WordTileTray)
      modifies this`attachedTile, tray`returning, TileSet(tile)`onDetached
      modifies TileSet(attachedTile)`interactable, TileSet(attachedTile)`onDetached
      ensures !old(TakesDrop(tile)) ==>
        attachedTile == old(attachedTile) && tray.returning == old(tray.returning) &&
        unchanged(TileSet(tile)) && unchanged(old(TileSet(attachedTile)))
      ensures old(TakesDrop(tile)) ==>
        attachedTile == tile && tile.value.onDetached == Some(this)
      ensures old(TakesDrop(tile)) && old(attachedTile).None? ==>
        tray.returning == old(tray.returning)
      ensures old(TakesDrop(tile)) && old(attachedTile).Some? ==>
        var previous := old(attachedTile).value;
        !previous.interactable && previous.onDetached == None &&
        tray.returning == old(tray.returning) + [previous]
    {
      if tile != attachedTile && tile.Some? && tile.value.interactable {
        if attachedTile.Some? {
          var previous := attachedTile.value;
          tray.ReturnTile(previous);
        }
        SnapTileToSlot(tile.value);
      }
    }

    /** Detaches whatever tile is on the slot. */
    method DetachTile()
      modifies this`attachedTile
      ensures attachedTile == None
    {
      DetachTileIf(attachedTile);
    }

    /** Detaches `argDetachedTile` if it is the tile on the slot; otherwise nothing changes. */
    method DetachTileIf(argDetachedTile: Option<WordTile>)
      modifies this`attachedTile
      ensures old(attachedTile) == argDetachedTile ==> attachedTile == None
      ensures old(attachedTile) != argDetachedTile ==> attachedTile == old(attachedTile)
    {
      if attachedTile == argDetachedTile {
        attachedTile := None;
      }
    }

    function GetAttachedWordTile(): (r: Option<WordTile>)
      reads this
      ensures r == attachedTile
    {
      attachedTile
    }
  }

  class WordTileSlotGroup {
    /** The slots of the group, left to right. */
    const slots: seq<WordTileSlot>

    constructor (argSlots: seq<WordTileSlot>)
      ensures slots == argSlots
    {
      slots := argSlots;
    }

    /** The tiles on the group's slots. */
    function AttachedTiles(): set<WordTile>
      reads slots
    {
      set i, t | 0 <= i < |slots| && t in TileSet(slots[i].attachedTile) :: t
    }

    /** What the slots hold, left to right: the letter of each slot's tile, or nothing. */
    function Letters(): (r: Row)
      reads slots, AttachedTiles()
      ensures |r| == |slots|
      ensures forall i :: 0 <= i < |slots| ==> r[i] == TileLetter(slots[i].attachedTile)
    {
      seq(|slots|, i requires 0 <= i < |slots| reads slots, AttachedTiles() =>
        TileLetter(slots[i].attachedTile))
    }

    /** Detaches the tile of every slot. */
    method Reset()
      modifies slots
      ensures forall i :: 0 <= i < |slots| ==> slots[i].attachedTile == None
      ensures AllEmpty(Letters())
    {
      for i := 0 to |slots|
        invariant forall j :: 0 <= j < i ==> slots[j].attachedTile == None
      {
        slots[i].DetachTile();
      }
    }

    /**
     * Scans the slots from the right: once an occupied slot has been seen, an
     * empty one to its left makes the group unplayable.
     */
    method AreSlotsPlayable() returns (isPlayable: bool)
      ensures isPlayable == Playable(Letters())
    {
      ghost var row := Letters();
      isPlayable := false;
      var i := |slots|;
      while i > 0
        invariant 0 <= i <= |slots|
        invariant isPlayable <==> exists j :: i <= j < |row| && row[j].Some?
        invariant forall j, k :: i <= j < k < |row| && row[k].Some? ==> row[j].Some?
      {
        i := i - 1;
        var wordTile := slots[i].GetAttachedWordTile();
        if isPlayable && wordTile.None? {
          return false;
        } else if wordTile.Some? {
          isPlayable := true;
        }
      }
    }

    /** Whether no slot holds a tile. */
    method AreSlotsEmpty() returns (isEmpty: bool)
      ensures isEmpty == AllEmpty(Letters())
    {
      ghost var row := Letters();
      for i := 0 to |slots|
        invariant forall j :: 0 <= j < i ==> row[j].None?
      {
        if slots[i].GetAttachedWordTile().Some? {
          return false;
        }
      }
      return true;
    }

    /** The letters from the leftmost slot up to the first empty one, lower-cased. */
    method GetPlayableWord() returns (w: string)
      ensures w == PlayableWord(Letters())
      ensures |w| <= |slots|
    {
      ghost var row := Letters();
      var sb: string := [];
      var i := 0;
      while i < |slots|
        invariant i <= RunLength(row)
        invariant sb == LeadingLetters(row)[..i]
      {
        var wordTile := slots[i].GetAttachedWordTile();
        if wordTile.None? {
          break;
        }
        sb := sb + [wordTile.value.GetLetter()];
        i := i + 1;
      }
      assert i == RunLength(row);
      w := Lower(sb);
    }
  }

  class WordTileTray {
    /** The playable tiles. */
    const wordTiles: seq<WordTile>
    /** Whether a shuffle is running. */
    var isShuffling: bool
    /** The weighted letter bag. */
    var availableLetters: seq<char>
    /** How many shuffles have been started. */
    var shufflesStarted: nat
    /** A log of the ReturnTile calls, oldest first; a return that Reset cancels stays in the log. */
    var returning: seq<WordTile>

    constructor (argTiles: seq<WordTile>)
      ensures wordTiles == argTiles && !isShuffling && availableLetters == []
      ensures shufflesStarted == 0 && returning == []
    {
      wordTiles := argTiles;
      isShuffling, availableLetters, shufflesStarted, returning := false, [], 0, [];
    }

    /** No tile is listed twice. */
    predicate DistinctTiles() {
      forall i, j :: 0 <= i < j < |wordTiles| ==> wordTiles[i] != wordTiles[j]
    }

    /** Adds `argWeight` copies of a letter to the end of the bag; a weight below one adds none. */
    method AddCharacter(argCharacterToAdd: char, argWeight: int)
      modifies this`availableLetters
      ensures availableLetters == old(availableLetters) + Repeat(argCharacterToAdd, if argWeight < 0 then 0 else argWeight)
    {
      var i := 0;
      while i < argWeight
        invariant 0 <= i <= if argWeight < 0 then 0 else argWeight
        invariant availableLetters == old(availableLetters) + Repeat(argCharacterToAdd, i)
      {
        assert Repeat(argCharacterToAdd, i + 1) == Repeat(argCharacterToAdd, i) + [argCharacterToAdd];
        availableLetters := availableLetters + [argCharacterToAdd];
        i := i + 1;
      }
    }

    /** The first part of PopulateCharacters: each letter with its weight, in the fill order. */
    method AddWeightedLetters()
      modifies this`availableLetters
      ensures availableLetters == old(availableLetters) + WeightedLetters()
    {
      FillOrderIsFillOrder();
      AddFirstEntries(FillOrder());
      AddLastEntries(FillOrder());
      assert availableLetters == availableLetters + FillFrom(FillOrder(), 26);
    }

    /** Adds entries 0 to 12 of the fill order `t`. */
    method AddFirstEntries(ghost t: seq<(char, nat)>)
      requires IsFillOrder(t)
      modifies this`availableLetters
      ensures availableLetters + FillFrom(t, 13) == old(availableLetters) + FillFrom(t, 0)
    {
      ghost var base := availableLetters + FillFrom(t, 0);
      ghost var before := availableLetters;
      AddCharacter('E', 12); FillStep(t, 0, 'E', 12, before, base); before := availableLetters;
      AddCharacter('A', 9); FillStep(t, 1, 'A', 9, before, base); before := availableLetters;
      AddCharacter('I', 9); FillStep(t, 2, 'I', 9, before, base); before := availableLetters;
      AddCharacter('O', 8); FillStep(t, 3, 'O', 8, before, base); before := availableLetters;
      AddCharacter('N', 6); FillStep(t, 4, 'N', 6, before, base); before := availableLetters;
      AddCharacter('R', 6); FillStep(t, 5, 'R', 6, before, base); before := availableLetters;
      AddCharacter('T', 6); FillStep(t, 6, 'T', 6, before, base); before := availableLetters;
      AddCharacter('L', 4); FillStep(t, 7, 'L', 4, before, base); before := availableLetters;
      AddCharacter('S', 4); FillStep(t, 8, 'S', 4, before, base); before := availableLetters;
      AddCharacter('U', 4); FillStep(t, 9, 'U', 4, before, base); before := availableLetters;
      AddCharacter('D', 4); FillStep(t, 10, 'D', 4, before, base); before := availableLetters;
      AddCharacter('G', 3); FillStep(t, 11, 'G', 3, before, base); before := availableLetters;
      AddCharacter('B', 2); FillStep(t, 12, 'B', 2, before, base);
    }

    /** Adds entries 13 to 25 of the fill order `t`. */
    method AddLastEntries(ghost t: seq<(char, nat)>)
      requires IsFillOrder(t)
      modifies this`availableLetters
      ensures availableLetters + FillFrom(t, 26) == old(availableLetters) + FillFrom(t, 13)
    {
      ghost var base := availableLetters + FillFrom(t, 13);
      ghost var before := availableLetters;
      AddCharacter('C', 2); FillStep(t, 13, 'C', 2, before, base); before := availableLetters;
      AddCharacter('M', 2); FillStep(t, 14, 'M', 2, before, base); before := availableLetters;
      AddCharacter('P', 2); FillStep(t, 15, 'P', 2, before, base); before := availableLetters;
      AddCharacter('F', 2); FillStep(t, 16, 'F', 2, before, base); before := availableLetters;
      AddCharacter('H', 2); FillStep(t, 17, 'H', 2, before, base); before := availableLetters;
      AddCharacter('V', 2); FillStep(t, 18, 'V', 2, before, base); before := availableLetters;
      AddCharacter('W', 2); FillStep(t, 19, 'W', 2, before, base); before := availableLetters;
      AddCharacter('Y', 2); FillStep(t, 20, 'Y', 2, before, base); before := availableLetters;
      AddCharacter('K', 1); FillStep(t, 21, 'K', 1, before, base); before := availableLetters;
      AddCharacter('J', 1); FillStep(t, 22, 'J', 1, before, base); before := availableLetters;
      AddCharacter('X', 1); FillStep(t, 23, 'X', 1, before, base); before := availableLetters;
      AddCharacter('Q', 1); FillStep(t, 24, 'Q', 1, before, base); before := availableLetters;
      AddCharacter('Z', 1); FillStep(t, 25, 'Z', 1, before, base);
    }

    /** The second part of PopulateCharacters: position `a` is swapped with position `picks[a]`, left to right. */
    method ShuffleLetters(picks: seq<nat>)
      requires |picks| == |availableLetters|
      requires forall i :: 0 <= i < |picks| ==> picks[i] < |availableLetters|
      modifies this`availableLetters
      ensures availableLetters == Shuffled(old(availableLetters), picks, |picks|)
      ensures multiset(availableLetters) == multiset(old(availableLetters))
    {
      ghost var start := availableLetters;
      var count := |availableLetters|;
      for a := 0 to count
        invariant availableLetters == Shuffled(start, picks, a)
      {
        var b := picks[a];
        var tmp := availableLetters[a];
        availableLetters := availableLetters[a := availableLetters[b]];
        availableLetters := availableLetters[b := tmp];
      }
    }

    /**
     * Adds the weighted letters to the bag and shuffles the whole bag; the
     * random positions of the shuffle are `picks`.
     */
    method PopulateCharacters(picks: seq<nat>)
      requires |picks| == |availableLetters| + |WeightedLetters()|
      requires forall i :: 0 <= i < |picks| ==> picks[i] < |picks|
      modifies this`availableLetters
      ensures availableLetters == Shuffled(old(availableLetters) + WeightedLetters(), picks, |picks|)
      ensures multiset(availableLetters) == multiset(old(availableLetters) + WeightedLetters())
    {
      AddWeightedLetters();
      ShuffleLetters(picks);
    }

    /** The letter at position `pick` of the bag. */
    function GetRandomCharacter(pick: nat): (r: char)
      reads this
      requires pick < |availableLetters|
      ensures r in availableLetters
    {
      availableLetters[pick]
    }

    /** Hides every tile, makes it not interactable and clears its detach callback. */
    method Reset()
      modifies wordTiles
      ensures forall i :: 0 <= i < |wordTiles| ==>
        !wordTiles[i].active && !wordTiles[i].interactable && wordTiles[i].onDetached == None
      ensures forall i :: 0 <= i < |wordTiles| ==> wordTiles[i].letter == old(wordTiles[i].letter)
    {
      for i := 0 to |wordTiles|
        invariant forall j :: 0 <= j < i ==>
          !wordTiles[j].active && !wordTiles[j].interactable && wordTiles[j].onDetached == None
        invariant forall j :: 0 <= j < |wordTiles| ==> wordTiles[j].letter == old(wordTiles[j].letter)
      {
        wordTiles[i].active := false;
        wordTiles[i].interactable := false;
        wordTiles[i].onDetached := None;
      }
    }

    function IsShuffling(): (r: bool)
      reads this
      ensures r == isShuffling
    {
      isShuffling
    }

    /** Starts a shuffle unless one is running; a running shuffle is not restarted. */
    method ShuffleInNewTiles()
      modifies this`isShuffling, this`shufflesStarted
      ensures isShuffling
      ensures old(isShuffling) ==> shufflesStarted == old(shufflesStarted)
      ensures !old(isShuffling) ==> shufflesStarted == old(shufflesStarted) + 1
    {
      if !isShuffling {
        isShuffling := true;
        shufflesStarted := shufflesStarted + 1;
      }
    }

    /** Tile `j` is shown with the letter of `letters` at the pick of the last position below `n` that lists it. */
    ghost predicate ShowsLastPick(letters: seq<char>, picks: seq<nat>, j: nat, n: nat)
      requires j < |wordTiles| && n <= |wordTiles| && |picks| == |wordTiles|
      reads wordTiles[j]
    {
      var k := LastIndexBefore(wordTiles, wordTiles[j], n);
      k >= 0 && picks[k] < |letters| &&
      wordTiles[j].active && wordTiles[j].letter == letters[picks[k]]
    }

    /**
     * The shuffle, run to its end: every tile is shown, all tiles become
     * interactable and the shuffle is over. A tile gets the bag letter at
     * the pick of the last position that lists it, which for distinct tiles
     * is its own position.
     */
    method ShuffleInNewTilesCo(picks: seq<nat>)
      requires |picks| == |wordTiles|
      requires forall i :: 0 <= i < |picks| ==> picks[i] < |availableLetters|
      modifies this`isShuffling, wordTiles
      ensures !isShuffling
      ensures forall i :: 0 <= i < |wordTiles| ==>
        wordTiles[i].active && wordTiles[i].interactable && wordTiles[i].onDetached == None
      ensures forall i :: 0 <= i < |wordTiles| ==>
        wordTiles[i].letter == availableLetters[picks[LastIndexBefore(wordTiles, wordTiles[i], |wordTiles|)]]
      ensures DistinctTiles() ==>
        forall i :: 0 <= i < |wordTiles| ==> wordTiles[i].letter == availableLetters[picks[i]]
    {
      Reset();
      ShowTiles(picks);
      EnableTiles(picks);
      isShuffling := false;
      if DistinctTiles() {
        forall i | 0 <= i < |wordTiles|
          ensures LastIndexBefore(wordTiles, wordTiles[i], |wordTiles|) == i
        {
          LastIndexOfDistinct(wordTiles, i);
        }
      }
    }

    /** The first loop of the shuffle: each tile in turn is shown with the bag letter at its pick. */
    method ShowTiles(picks: seq<nat>)
      requires |picks| == |wordTiles|
      requires forall i :: 0 <= i < |picks| ==> picks[i] < |availableLetters|
      requires forall j :: 0 <= j < |wordTiles| ==> !wordTiles[j].interactable && wordTiles[j].onDetached == None
      modifies wordTiles
      ensures forall j :: 0 <= j < |wordTiles| ==> !wordTiles[j].interactable && wordTiles[j].onDetached == None
      ensures forall j :: 0 <= j < |wordTiles| ==>
        wordTiles[j].active &&
        wordTiles[j].letter == availableLetters[picks[LastIndexBefore(wordTiles, wordTiles[j], |wordTiles|)]]
    {
      for i := 0 to |wordTiles|
        invariant forall j :: 0 <= j < |wordTiles| ==> !wordTiles[j].interactable && wordTiles[j].onDetached == None
        invariant forall j :: 0 <= j < i ==> ShowsLastPick(availableLetters, picks, j, i)
      {
        var tile := wordTiles[i];
        label Before:
        tile.active := true;
        tile.SetLetter(GetRandomCharacter(picks[i]));
        ghost var n := i + 1;
        forall j | 0 <= j < n
          ensures ShowsLastPick(availableLetters, picks, j, n)
        {
          if wordTiles[j] == tile {
            assert LastIndexBefore(wordTiles, wordTiles[j], n) == i;
          } else {
            assert LastIndexBefore(wordTiles, wordTiles[j], n) == LastIndexBefore(wordTiles, wordTiles[j], i);
            assert old@Before(ShowsLastPick(availableLetters, picks, j, i));
          }
        }
      }
      forall j | 0 <= j < |wordTiles|
        ensures wordTiles[j].active &&
          wordTiles[j].letter == availableLetters[picks[LastIndexBefore(wordTiles, wordTiles[j], |wordTiles|)]]
      {
        assert ShowsLastPick(availableLetters, picks, j, |wordTiles|);
      }
    }

    /** The second loop of the shuffle: every tile becomes interactable. */
    method EnableTiles(picks: seq<nat>)
      requires |picks| == |wordTiles|
      requires forall i :: 0 <= i < |picks| ==> picks[i] < |availableLetters|
      requires forall j :: 0 <= j < |wordTiles| ==> wordTiles[j].onDetached == None
      requires forall j :: 0 <= j < |wordTiles| ==>
        wordTiles[j].active &&
        wordTiles[j].letter == availableLetters[picks[LastIndexBefore(wordTiles, wordTiles[j], |wordTiles|)]]
      modifies wordTiles
      ensures forall j :: 0 <= j < |wordTiles| ==>
        wordTiles[j].active && wordTiles[j].interactable && wordTiles[j].onDetached == None
      ensures forall j :: 0 <= j < |wordTiles| ==>
        wordTiles[j].letter == availableLetters[picks[LastIndexBefore(wordTiles, wordTiles[j], |wordTiles|)]]
    {
      for i := 0 to |wordTiles|
        invariant forall j :: 0 <= j < |wordTiles| ==> wordTiles[j].onDetached == None
        invariant forall j :: 0 <= j < |wordTiles| ==>
          wordTiles[j].active &&
          wordTiles[j].letter == availableLetters[picks[LastIndexBefore(wordTiles, wordTiles[j], |wordTiles|)]]
        invariant forall j :: 0 <= j < i ==> wordTiles[j].interactable
      {
        wordTiles[i].interactable := true;
      }
    }

    /** Starts handing `argTileToReturn` back: it stops being interactable, loses its detach callback and is logged. */
    method ReturnTile(argTileToReturn: WordTile)
      modifies this`returning, argTileToReturn`interactable, argTileToReturn`onDetached
      ensures !argTileToReturn.interactable && argTileToReturn.onDetached == None
      ensures returning == old(returning) + [argTileToReturn]
    {
      argTileToReturn.interactable := false;
      argTileToReturn.onDetached := None;
      returning := returning + [argTileToReturn];
    }
  }

  /** The last position below `n` at which `tiles` lists `t`, or -1 when there is none. */
  function LastIndexBefore(tiles: seq<WordTile>, t: WordTile, n: nat): (k: int)
    requires n <= |tiles|
    ensures -1 <= k < n
    ensures k >= 0 ==> tiles[k] == t
    ensures forall j :: k < j < n ==> tiles[j] != t
  {
    if n == 0 then -1 else if tiles[n - 1] == t then n - 1 else LastIndexBefore(tiles, t, n - 1)
  }

  /** In a list without repeats, the last position listing a tile is its only one. */
  lemma LastIndexOfDistinct(tiles: seq<WordTile>, i: nat)
    requires i < |tiles|
    requires forall a, b :: 0 <= a < b < |tiles| ==> tiles[a] != tiles[b]
    ensures LastIndexBefore(tiles, tiles[i], |tiles|) == i
  {
  }

  /** A bag populated from empty holds each letter as often as its weight, 98 letters in all. */
  lemma PopulatedBag(picks: seq<nat>, c: char)
    requires |picks| == |WeightedLetters()|
    requires forall i :: 0 <= i < |picks| ==> picks[i] < |picks|
    ensures var bag := Shuffled(WeightedLetters(), picks, |picks|);
      |bag| == 98 && multiset(bag)[c] == Weight(c)
  {
    WeightedLettersCount();
    WeightedLettersContents(c);
  }

  /** Every letter drawn from a bag populated from empty is one the fill order weighs. */
  lemma DrawnLetterIsWeighted(picks: seq<nat>, pick: nat)
    requires |picks| == |WeightedLetters()|
    requires forall i :: 0 <= i < |picks| ==> picks[i] < |picks|
    requires pick < |picks|
    ensures Weight(Shuffled(WeightedLetters(), picks, |picks|)[pick]) > 0
  {
    var bag := Shuffled(WeightedLetters(), picks, |picks|);
    PopulatedBag(picks, bag[pick]);
    assert bag[pick] in multiset(bag);
  }
}
