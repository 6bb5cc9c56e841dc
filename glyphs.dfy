/**
 * The glyph table of digits 0-9. Both snapshots of the program carry the same
 * table: each glyph is a string of five rows of three characters, every row
 * ended by a newline, where `'0'` marks a wall pixel and `'1'` an opening.
 */
module Glyphs {

  const DIGIT_PATTERN_STRS: seq<string> := [
    "111\n101\n101\n101\n111\n",  // 0
    "001\n001\n001\n001\n001\n",  // 1
    "111\n001\n111\n100\n111\n",  // 2
    "111\n001\n111\n001\n111\n",  // 3
    "101\n101\n111\n001\n001\n",  // 4
    "111\n100\n111\n001\n111\n",  // 5
    "111\n100\n111\n101\n111\n",  // 6
    "111\n101\n001\n001\n001\n",  // 7
    "111\n101\n111\n101\n111\n",  // 8
    "111\n101\n111\n001\n111\n"   // 9
  ]

  predicate IsDigit(d: int) { 0 <= d < 10 }

  /**
   * The pixel at row dy, column dx of the glyph's picture: row `dy` starts at
   * character `4 * dy` of the string, as `GlyphLayout` shows for every glyph.
   */
  function Pixel(digit: int, dy: int, dx: int): char
    requires IsDigit(digit) && 0 <= dy < 5 && 0 <= dx < 3
  {
    DIGIT_PATTERN_STRS[digit][4 * dy + dx]
  }

  /** A `'0'` pixel is drawn as wall. */
  predicate IsWallPixel(digit: int, dy: int, dx: int)
    requires IsDigit(digit) && 0 <= dy < 5 && 0 <= dx < 3
  {
    Pixel(digit, dy, dx) == '0'
  }

  /** Every glyph is five rows of three pixels, each row ended by a newline, and every pixel is `'0'` or `'1'`. */
  lemma GlyphLayout()
    ensures forall d | IsDigit(d) :: |DIGIT_PATTERN_STRS[d]| == 20
    ensures forall d, i | IsDigit(d) && 0 <= i < 20 :: DIGIT_PATTERN_STRS[d][i] == '\n' <==> i % 4 == 3
    ensures forall d, dy, dx | IsDigit(d) && 0 <= dy < 5 && 0 <= dx < 3 :: Pixel(d, dy, dx) in {'0', '1'}
  {
  }

  /** The glyph of 8 opens every pixel except the two holes of its loops. */
  lemma EightHasTwoHoles()
    ensures forall dy, dx | 0 <= dy < 5 && 0 <= dx < 3 ::
      IsWallPixel(8, dy, dx) <==> dx == 1 && (dy == 1 || dy == 3)
  {
  }
}
