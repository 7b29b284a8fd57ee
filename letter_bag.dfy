// The weighted letter bag new tiles draw their letters from: each letter
// appears as many times as its weight.

module LetterBag {
  /** `w` copies of `c`. */
  function Repeat(c: char, w: nat): (r: seq<char>)
    ensures |r| == w && forall i :: 0 <= i < w ==> r[i] == c
  {
    seq(w, _ => c)
  }

  /** `w` copies of `c` hold `c` `w` times and nothing else. */
  lemma RepeatMultiset(c: char, w: nat)
    ensures multiset(Repeat(c, w)) == multiset{}[c := w]
    decreases w
  {
    if w > 0 {
      RepeatMultiset(c, w - 1);
      assert Repeat(c, w) == Repeat(c, w - 1) + [c];
    }
  }

  /** Putting `w` copies of `c` in front adds `w` to the count of `c` only. */
  lemma RepeatThenMultiset(c: char, w: nat, rest: seq<char>, d: char)
    ensures multiset(Repeat(c, w) + rest)[d] == (if c == d then w else 0) + multiset(rest)[d]
  {
    RepeatMultiset(c, w);
  }

  /** The number of letters the bag is filled with. */
  const FILL_COUNT: nat := 26

  /** The letter and weight of the `k`-th entry in the order the bag is filled. */
  function Entry(k: nat): (char, nat)
    requires k < FILL_COUNT
  {
    match k
    case 0 => ('E', 12)
    case 1 => ('A', 9)
    case 2 => ('I', 9)
    case 3 => ('O', 8)
    case 4 => ('N', 6)
    case 5 => ('R', 6)
    case 6 => ('T', 6)
    case 7 => ('L', 4)
    case 8 => ('S', 4)
    case 9 => ('U', 4)
    case 10 => ('D', 4)
    case 11 => ('G', 3)
    case 12 => ('B', 2)
    case 13 => ('C', 2)
    case 14 => ('M', 2)
    case 15 => ('P', 2)
    case 16 => ('F', 2)
    case 17 => ('H', 2)
    case 18 => ('V', 2)
    case 19 => ('W', 2)
    case 20 => ('Y', 2)
    case 21 => ('K', 1)
    case 22 => ('J', 1)
    case 23 => ('X', 1)
    case 24 => ('Q', 1)
    case _ => ('Z', 1)
  }

  /** Each letter with its weight, in the order the bag is filled. */
  function FillOrder(): (t: seq<(char, nat)>)
    ensures |t| == FILL_COUNT && forall k :: 0 <= k < FILL_COUNT ==> t[k] == Entry(k)
  {
    seq(FILL_COUNT, k requires 0 <= k < FILL_COUNT => Entry(k))
  }

  /** The letters that entries `k ..` of table `t` add, in order. */
  function FillFrom(t: seq<(char, nat)>, k: nat): seq<char>
    requires k <= |t|
    decreases |t| - k
  {
    if k == |t| then [] else Repeat(t[k].0, t[k].1) + FillFrom(t, k + 1)
  }

  /** The bag as filled, before it is shuffled. */
  function WeightedLetters(): seq<char> {
    FillFrom(FillOrder(), 0)
  }

  /** The weight that entries `k ..` of table `t` give the letter `c`. */
  function WeightFrom(t: seq<(char, nat)>, k: nat, c: char): nat
    requires k <= |t|
    decreases |t| - k
  {
    if k == |t| then 0
    else (if t[k].0 == c then t[k].1 else 0) + WeightFrom(t, k + 1, c)
  }

  /** How often each letter is in the filled bag. */
  function Weight(c: char): nat {
    match c
    case 'E' => 12
    case 'A' => 9
    case 'I' => 9
    case 'O' => 8
    case 'N' => 6
    case 'R' => 6
    case 'T' => 6
    case 'L' => 4
    case 'S' => 4
    case 'U' => 4
    case 'D' => 4
    case 'G' => 3
    case 'B' => 2
    case 'C' => 2
    case 'M' => 2
    case 'P' => 2
    case 'F' => 2
    case 'H' => 2
    case 'V' => 2
    case 'W' => 2
    case 'Y' => 2
    case 'K' => 1
    case 'J' => 1
    case 'X' => 1
    case 'Q' => 1
    case 'Z' => 1
    case _ => 0
  }

  /** Entries `k ..` of a table add each letter as often as they weigh it. */
  lemma {:induction false} FillFromMultiset(t: seq<(char, nat)>, k: nat, c: char)
    requires k <= |t|
    ensures multiset(FillFrom(t, k))[c] == WeightFrom(t, k, c)
    decreases |t| - k
  {
    if k < |t| {
      FillFromMultiset(t, k + 1, c);
      RepeatThenMultiset(t[k].0, t[k].1, FillFrom(t, k + 1), c);
    }
  }

  /** `t` lists the letters and weights of the fill order, entry by entry. */
  predicate IsFillOrder(t: seq<(char, nat)>) {
    |t| == FILL_COUNT &&
    t[0] == ('E', 12) &&
    t[1] == ('A', 9) &&
    t[2] == ('I', 9) &&
    t[3] == ('O', 8) &&
    t[4] == ('N', 6) &&
    t[5] == ('R', 6) &&
    t[6] == ('T', 6) &&
    t[7] == ('L', 4) &&
    t[8] == ('S', 4) &&
    t[9] == ('U', 4) &&
    t[10] == ('D', 4) &&
    t[11] == ('G', 3) &&
    t[12] == ('B', 2) &&
    t[13] == ('C', 2) &&
    t[14] == ('M', 2) &&
    t[15] == ('P', 2) &&
    t[16] == ('F', 2) &&
    t[17] == ('H', 2) &&
    t[18] == ('V', 2) &&
    t[19] == ('W', 2) &&
    t[20] == ('Y', 2) &&
    t[21] == ('K', 1) &&
    t[22] == ('J', 1) &&
    t[23] == ('X', 1) &&
    t[24] == ('Q', 1) &&
    t[25] == ('Z', 1)
  }

  lemma FillOrderIsFillOrder()
    ensures IsFillOrder(FillOrder())
  {
  }

  /** Entry `k` of table `t`, (`letter`, `weight`), weighs only `letter`. */
  lemma WeightStep(t: seq<(char, nat)>, k: nat, letter: char, weight: nat, c: char)
    requires k < |t| && t[k] == (letter, weight)
    ensures WeightFrom(t, k, c) == (if letter == c then weight else 0) + WeightFrom(t, k + 1, c)
  {
  }

  /** Entries 0 to 6 of a fill-order table. */
  lemma FirstQuarterWeights(t: seq<(char, nat)>, c: char)
    requires IsFillOrder(t)
    ensures WeightFrom(t, 0, c) ==
      (if c == 'E' then 12 else 0) + (if c == 'A' then 9 else 0) + (if c == 'I' then 9 else 0) + (if c == 'O' then 8 else 0) + (if c == 'N' then 6 else 0) + (if c == 'R' then 6 else 0) + (if c == 'T' then 6 else 0)
      + WeightFrom(t, 7, c)
  {
    WeightStep(t, 0, 'E', 12, c);
    WeightStep(t, 1, 'A', 9, c);
    WeightStep(t, 2, 'I', 9, c);
    WeightStep(t, 3, 'O', 8, c);
    WeightStep(t, 4, 'N', 6, c);
    WeightStep(t, 5, 'R', 6, c);
    WeightStep(t, 6, 'T', 6, c);
  }

  /** Entries 7 to 12 of a fill-order table. */
  lemma SecondQuarterWeights(t: seq<(char, nat)>, c: char)
    requires IsFillOrder(t)
    ensures WeightFrom(t, 7, c) ==
      (if c == 'L' then 4 else 0) + (if c == 'S' then 4 else 0) + (if c == 'U' then 4 else 0) + (if c == 'D' then 4 else 0) + (if c == 'G' then 3 else 0) + (if c == 'B' then 2 else 0)
      + WeightFrom(t, 13, c)
  {
    WeightStep(t, 7, 'L', 4, c);
    WeightStep(t, 8, 'S', 4, c);
    WeightStep(t, 9, 'U', 4, c);
    WeightStep(t, 10, 'D', 4, c);
    WeightStep(t, 11, 'G', 3, c);
    WeightStep(t, 12, 'B', 2, c);
  }

  /** Entries 13 to 19 of a fill-order table. */
  lemma ThirdQuarterWeights(t: seq<(char, nat)>, c: char)
    requires IsFillOrder(t)
    ensures WeightFrom(t, 13, c) ==
      (if c == 'C' then 2 else 0) + (if c == 'M' then 2 else 0) + (if c == 'P' then 2 else 0) + (if c == 'F' then 2 else 0) + (if c == 'H' then 2 else 0) + (if c == 'V' then 2 else 0) + (if c == 'W' then 2 else 0)
      + WeightFrom(t, 20, c)
  {
    WeightStep(t, 13, 'C', 2, c);
    WeightStep(t, 14, 'M', 2, c);
    WeightStep(t, 15, 'P', 2, c);
    WeightStep(t, 16, 'F', 2, c);
    WeightStep(t, 17, 'H', 2, c);
    WeightStep(t, 18, 'V', 2, c);
    WeightStep(t, 19, 'W', 2, c);
  }

  /** Entries 20 to 25 of a fill-order table. */
  lemma LastQuarterWeights(t: seq<(char, nat)>, c: char)
    requires IsFillOrder(t)
    ensures WeightFrom(t, 20, c) ==
      (if c == 'Y' then 2 else 0) + (if c == 'K' then 1 else 0) + (if c == 'J' then 1 else 0) + (if c == 'X' then 1 else 0) + (if c == 'Q' then 1 else 0) + (if c == 'Z' then 1 else 0)
  {
    WeightStep(t, 20, 'Y', 2, c);
    WeightStep(t, 21, 'K', 1, c);
    WeightStep(t, 22, 'J', 1, c);
    WeightStep(t, 23, 'X', 1, c);
    WeightStep(t, 24, 'Q', 1, c);
    WeightStep(t, 25, 'Z', 1, c);
  }

  /** A fill-order table weighs every letter as `Weight` does. */
  lemma FillOrderWeights(t: seq<(char, nat)>, c: char)
    requires IsFillOrder(t)
    ensures WeightFrom(t, 0, c) == Weight(c)
  {
    FirstQuarterWeights(t, c);
    SecondQuarterWeights(t, c);
    ThirdQuarterWeights(t, c);
    LastQuarterWeights(t, c);
  }

  /** The filled bag holds each letter as often as its weight. */
  lemma WeightedLettersContents(c: char)
    ensures multiset(WeightedLetters())[c] == Weight(c)
  {
    FillFromMultiset(FillOrder(), 0, c);
    FillOrderIsFillOrder();
    FillOrderWeights(FillOrder(), c);
  }

  /** Entry `k` of table `t` adds its weight to the length. */
  lemma LengthStep(t: seq<(char, nat)>, k: nat, letter: char, weight: nat)
    requires k < |t| && t[k] == (letter, weight)
    ensures |FillFrom(t, k)| == weight + |FillFrom(t, k + 1)|
  {
  }

  /** A fill-order table adds 98 letters. */
  lemma FillOrderLength(t: seq<(char, nat)>)
    requires IsFillOrder(t)
    ensures |FillFrom(t, 0)| == 98
  {
    LengthStep(t, 0, 'E', 12);
    LengthStep(t, 1, 'A', 9);
    LengthStep(t, 2, 'I', 9);
    LengthStep(t, 3, 'O', 8);
    LengthStep(t, 4, 'N', 6);
    LengthStep(t, 5, 'R', 6);
    LengthStep(t, 6, 'T', 6);
    LengthStep(t, 7, 'L', 4);
    LengthStep(t, 8, 'S', 4);
    LengthStep(t, 9, 'U', 4);
    LengthStep(t, 10, 'D', 4);
    LengthStep(t, 11, 'G', 3);
    LengthStep(t, 12, 'B', 2);
    LengthStep(t, 13, 'C', 2);
    LengthStep(t, 14, 'M', 2);
    LengthStep(t, 15, 'P', 2);
    LengthStep(t, 16, 'F', 2);
    LengthStep(t, 17, 'H', 2);
    LengthStep(t, 18, 'V', 2);
    LengthStep(t, 19, 'W', 2);
    LengthStep(t, 20, 'Y', 2);
    LengthStep(t, 21, 'K', 1);
    LengthStep(t, 22, 'J', 1);
    LengthStep(t, 23, 'X', 1);
    LengthStep(t, 24, 'Q', 1);
    LengthStep(t, 25, 'Z', 1);
  }

  /** The filled bag holds 98 letters. */
  lemma WeightedLettersCount()
    ensures |WeightedLetters()| == 98
  {
    FillOrderIsFillOrder();
    FillOrderLength(FillOrder());
  }

  /** `s` with the entries at `a` and `b` exchanged. */
  function Swap(s: seq<char>, a: nat, b: nat): (r: seq<char>)
    requires a < |s| && b < |s|
    ensures |r| == |s| && r[a] == s[b] && r[b] == s[a]
    ensures forall i :: 0 <= i < |s| && i != a && i != b ==> r[i] == s[i]
    ensures multiset(r) == multiset(s)
  {
    s[a := s[b]][b := s[a]]
  }

  /**
   * The bag after the first `a` steps of the swap shuffle, where step `i`
   * swaps position `i` with position `picks[i]`.
   */
  function Shuffled(s: seq<char>, picks: seq<nat>, a: nat): (r: seq<char>)
    requires a <= |picks| && forall i :: 0 <= i < |picks| ==> picks[i] < |s|
    requires a <= |s|
    ensures |r| == |s| && multiset(r) == multiset(s)
    decreases a
  {
    if a == 0 then s else Swap(Shuffled(s, picks, a - 1), a - 1, picks[a - 1])
  }

  /** One AddCharacter for entry `k`, (`letter`, `weight`), moves the fill on by one entry. */
  lemma FillStep(t: seq<(char, nat)>, k: nat, letter: char, weight: nat, before: seq<char>, base: seq<char>)
    requires k < |t| && t[k] == (letter, weight) && before + FillFrom(t, k) == base
    ensures (before + Repeat(letter, weight)) + FillFrom(t, k + 1) == base
  {
    assert FillFrom(t, k) == Repeat(t[k].0, t[k].1) + FillFrom(t, k + 1);
  }
}
