// Constants of the game shared by the game manager, the menus and the tiles,
// and the unsigned 32-bit numbers the score and the round are kept in.

module GameConstants {
  /** An unsigned 32-bit number. */
  newtype uint32 = x: int | 0 <= x < 0x1_0000_0000

  /** Unchecked unsigned 32-bit addition: a sum past the largest value wraps around to zero. */
  function WrappingAdd(a: uint32, b: uint32): (r: uint32)
    ensures a as int + b as int < 0x1_0000_0000 ==> r as int == a as int + b as int
    ensures a as int + b as int >= 0x1_0000_0000 ==> r as int == a as int + b as int - 0x1_0000_0000
  {
    ((a as int + b as int) % 0x1_0000_0000) as uint32
  }

  /** How many rounds can be played before the game ends. */
  const MAX_ROUNDS: uint32 := 1

  /** The number of tiles that go in the tray, and of slots in a slot group. */
  const NUMBER_OF_PLAYABLE_TILES: nat := 8
}
