/** The widths of the C runtime's integers. */
module Words {
  const INT64_MIN := -0x8000_0000_0000_0000
  const INT64_MAX := 0x7fff_ffff_ffff_ffff

  /** How many values 32 and 64 bits have. */
  const HALF := 0x1_0000_0000
  const WORD := 0x1_0000_0000_0000_0000

  type Word = w: int | 0 <= w < WORD
}
