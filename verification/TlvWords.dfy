/** The constants of the TLV format, which the parser and the conversion share. */
module TlvWords {
  import opened Common

  const CONTAINER := 0
  const DB_SCALE := 1
  const DB_LINEAR := 2
  const DB_RANGE := 3
  const DB_MINMAX := 4
  const DB_MINMAX_MUTE := 5

  const GAIN_MUTE := -9999999
  const MAX_RANGE_SIZE := 256

  /** How many words hold `size` bytes, in unsigned arithmetic. */
  function IntIndex(size: Uint32): Uint32 {
    ((size + 3) % WRAP) / 4
  }
}
