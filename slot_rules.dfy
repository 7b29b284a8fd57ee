// The rules a row of word slots follows, stated on what the slots hold: slot
// `i` holds the letter of its tile, or nothing.

module SlotRules {
  import opened Wrappers

  /** The letters in a row of slots, left to right; `None` is an empty slot. */
  type Row = seq<Option<char>>

  /** No slot holds a tile. */
  predicate AllEmpty(s: Row) {
    forall i :: 0 <= i < |s| ==> s[i].None?
  }

  /** Some slot holds a tile, and no empty slot lies left of an occupied one. */
  predicate Playable(s: Row) {
    (exists i :: 0 <= i < |s| && s[i].Some?) &&
    forall i, j :: 0 <= i < j < |s| && s[j].Some? ==> s[i].Some?
  }

  /** The occupied slots form a non-empty prefix of the row, slots `0 .. k-1`. */
  predicate OccupiedPrefix(s: Row, k: nat) {
    1 <= k <= |s| &&
    (forall i :: 0 <= i < k ==> s[i].Some?) &&
    (forall i :: k <= i < |s| ==> s[i].None?)
  }

  /** Playable exactly when the occupied slots are a non-empty prefix. */
  lemma PlayableIffOccupiedPrefix(s: Row)
    ensures Playable(s) <==> exists k: nat :: OccupiedPrefix(s, k)
  {
    if Playable(s) {
      var k := RunLength(s);
      assert s[0].Some?;
      forall i | k <= i < |s|
        ensures s[i].None?
      {
        assert s[k].None?;
      }
      assert OccupiedPrefix(s, k);
    }
    if exists k: nat :: OccupiedPrefix(s, k) {
      var k: nat :| OccupiedPrefix(s, k);
      assert s[0].Some?;
    }
  }

  /** Empty slots are never playable. */
  lemma EmptyIsNotPlayable(s: Row)
    requires AllEmpty(s)
    ensures !Playable(s)
  {
  }

  /** The number of slots, from the left, that hold a tile before the first empty one. */
  function RunLength(s: Row): (n: nat)
    ensures n <= |s|
    ensures forall i :: 0 <= i < n ==> s[i].Some?
    ensures n < |s| ==> s[n].None?
    decreases |s|
  {
    if |s| == 0 || s[0].None? then 0 else 1 + RunLength(s[1..])
  }

  /** The letters from slot 0 up to the first empty slot. */
  function LeadingLetters(s: Row): (w: string)
    ensures |w| == RunLength(s)
    ensures forall i :: 0 <= i < |w| ==> s[i] == Some(w[i])
  {
    seq(RunLength(s), i requires 0 <= i < RunLength(s) => s[i].value)
  }

  /** `c` lower-cased: A-Z become a-z, every other character is kept. */
  function LowerAscii(c: char): (r: char)
    ensures 'A' <= c <= 'Z' ==> 'a' <= r <= 'z' && r as int == c as int + 32
    ensures !('A' <= c <= 'Z') ==> r == c
  {
    if 'A' <= c <= 'Z' then (c as int + 32) as char else c
  }

  /** `w` with every character lower-cased. */
  function Lower(w: string): (r: string)
    ensures |r| == |w| && forall i :: 0 <= i < |w| ==> r[i] == LowerAscii(w[i])
  {
    seq(|w|, i requires 0 <= i < |w| => LowerAscii(w[i]))
  }

  /** The word the slots spell: the leading run of letters, lower-cased. */
  function PlayableWord(s: Row): (w: string)
    ensures |w| == RunLength(s) <= |s|
    ensures forall i :: 0 <= i < |w| ==> s[i].Some? && w[i] == LowerAscii(s[i].value)
  {
    Lower(LeadingLetters(s))
  }

  /** The word is empty exactly when slot 0 is empty (or there are no slots). */
  lemma PlayableWordEmpty(s: Row)
    ensures PlayableWord(s) == "" <==> (|s| == 0 || s[0].None?)
  {
  }

  /** The number of occupied slots. */
  function Occupied(s: Row): (n: nat)
    ensures n <= |s|
    decreases |s|
  {
    if |s| == 0 then 0 else (if s[0].Some? then 1 else 0) + Occupied(s[1..])
  }

  /** A row with exactly the slots `0 .. k-1` occupied has `k` occupied slots. */
  lemma {:induction false} OccupiedOfPrefix(s: Row, k: nat)
    requires k <= |s|
    requires forall i :: 0 <= i < k ==> s[i].Some?
    requires forall i :: k <= i < |s| ==> s[i].None?
    ensures Occupied(s) == k
    decreases |s|
  {
    if |s| > 0 {
      if k == 0 {
        OccupiedOfPrefix(s[1..], 0);
      } else {
        OccupiedOfPrefix(s[1..], k - 1);
      }
    }
  }

  /** On playable slots the word has one letter per occupied slot. */
  lemma PlayableWordLength(s: Row)
    requires Playable(s)
    ensures |PlayableWord(s)| == Occupied(s) >= 1
  {
    PlayableIffOccupiedPrefix(s);
    var k: nat :| OccupiedPrefix(s, k);
    var n := RunLength(s);
    assert n < |s| ==> s[n].None?;
    assert k < |s| ==> s[k].None?;
    assert n == k;
    OccupiedOfPrefix(s, k);
  }
}
