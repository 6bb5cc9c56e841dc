/**
 * The field and digit renderer of the water clock (the pygame/curses
 * snapshot): constants, the initial field, the sinkhole drains cut into a
 * digit slot's floor, the digit stamp and the blinking colon.
 */
module ClockField {
  import opened Grid
  import opened Glyphs
  import opened Display

  const DIGIT_DISP_ZOOM := 3
  const WIDTH := (1 + 4 * 4) * DIGIT_DISP_ZOOM      // 51
  const HEIGHT := 7 * DIGIT_DISP_ZOOM               // 21
  /** The field has one hidden row below the visible ones: row HEIGHT. */
  const ROWS := HEIGHT + 1
  const WALL_COLOR := 16
  const SINKHOLE_OPENING_PERIOD := 30
  const LIQUID_MOVE_INTERVAL := 4
  const LIQUID_SEP_INTERVAL := 120
  const LIQUID_DROP_SIZE := 2
  const LIQUID_DROP_INTERVAL := 14
  const LIQUID_COLORS: seq<int> := [8, 10, 11]

  const COLON_X := 2 * 4 * DIGIT_DISP_ZOOM + DIGIT_DISP_ZOOM / 2   // 25
  const COLON_Y1 := 2 * DIGIT_DISP_ZOOM + DIGIT_DISP_ZOOM / 2      // 7
  const COLON_Y2 := 4 * DIGIT_DISP_ZOOM + DIGIT_DISP_ZOOM / 2      // 13

  predicate IsLiquid(v: int) { v in LIQUID_COLORS }

  /** Every cell holds background (0), wall or one liquid colour. */
  predicate IsCell(v: int) { v == 0 || v == WALL_COLOR || IsLiquid(v) }

  /** A grid of the field's shape whose cells are all background, wall or liquid. */
  predicate IsField(g: Grid) {
    Shaped(g, ROWS, WIDTH) && forall y, x | 0 <= y < ROWS && 0 <= x < WIDTH :: IsCell(g[y][x])
  }

  /** The leftmost of the nine columns of digit slot `pos`. */
  function SlotLeft(pos: int): int { (1 + pos * 4) * DIGIT_DISP_ZOOM }

  predicate InSlot(pos: int, x: int) {
    SlotLeft(pos) <= x < SlotLeft(pos) + 3 * DIGIT_DISP_ZOOM
  }

  // ---------------------------------------------------------------- create_field

  /** Rows 0-2 background, rows 3 to HEIGHT-1 wall, the bottom row background, both colon cells background. */
  function InitialCell(y: int, x: int): int {
    if y == COLON_Y1 && x == COLON_X then 0
    else if y == COLON_Y2 && x == COLON_X then 0
    else if DIGIT_DISP_ZOOM <= y < HEIGHT then WALL_COLOR
    else 0
  }

  /** The field `create_field` builds, as a value. */
  function InitialGrid(): (g: Grid)
    ensures IsField(g)
    ensures forall y, x | 0 <= y < ROWS && 0 <= x < WIDTH :: g[y][x] == InitialCell(y, x)
  {
    seq(ROWS, y => seq(WIDTH, x => InitialCell(y, x)))
  }

  /**
   * Before any digit is stamped, the top three rows and the hidden bottom row
   * are background and the rows between are wall except the two colon cells.
   */
  lemma InitialLayout()
    ensures var g := InitialGrid();
      && (forall y, x | 0 <= y < DIGIT_DISP_ZOOM && 0 <= x < WIDTH :: g[y][x] == 0)
      && (forall x | 0 <= x < WIDTH :: g[HEIGHT][x] == 0)
      && (forall y, x | DIGIT_DISP_ZOOM <= y < HEIGHT && 0 <= x < WIDTH && !IsColonCell(y, x) :: g[y][x] == WALL_COLOR)
      && g[COLON_Y1][COLON_X] == 0 && g[COLON_Y2][COLON_X] == 0
  {
  }

  method CreateField() returns (field: array2<int>)
    ensures fresh(field) && field.Length0 == ROWS && field.Length1 == WIDTH
    ensures Snap(field) == InitialGrid()
  {
    field := new int[ROWS, WIDTH]((y, x) => if DIGIT_DISP_ZOOM <= y < HEIGHT then WALL_COLOR else 0);
    field[COLON_Y1, COLON_X] := 0;
    field[COLON_Y2, COLON_X] := 0;
    SnapIs(field, InitialGrid());
  }

  // ---------------------------------------------------------------- put_sinkhole

  /** The two drain columns cut into the floor (rows 18-20) of slot `pos`. */
  predicate IsSinkholeCell(pos: int, y: int, x: int) {
    && (x == (1 + pos * 4 + 0) * DIGIT_DISP_ZOOM + 1 || x == (1 + pos * 4 + 2) * DIGIT_DISP_ZOOM + 1)
    && 6 * DIGIT_DISP_ZOOM <= y < 7 * DIGIT_DISP_ZOOM
  }

  function SinkholeCell(pos: int, y: int, x: int, v: int): int {
    if IsSinkholeCell(pos, y, x) && v == WALL_COLOR then 0 else v
  }

  function Sinkhole(g: Grid, pos: int): Grid {
    MapCells(g, (y, x, v) => SinkholeCell(pos, y, x, v))
  }

  method PutSinkhole(field: array2<int>, pos: int)
    requires field.Length0 == ROWS && field.Length1 == WIDTH && IsSlot(pos)
    modifies field
    ensures Snap(field) == Sinkhole(old(Snap(field)), pos)
  {
    // the two drain columns, visited in order
    var x0, x1 := (1 + pos * 4 + 0) * DIGIT_DISP_ZOOM + 1, (1 + pos * 4 + 2) * DIGIT_DISP_ZOOM + 1;
    for k := 0 to 2
      invariant forall i, j | 0 <= i < ROWS && 0 <= j < WIDTH ::
        field[i, j] == if (k > 0 && j == x0) || (k > 1 && j == x1)
                       then SinkholeCell(pos, i, j, old(field[i, j])) else old(field[i, j])
    {
      var x := if k == 0 then x0 else x1;
      for y := 6 * DIGIT_DISP_ZOOM to 7 * DIGIT_DISP_ZOOM
        invariant forall i, j | 0 <= i < ROWS && 0 <= j < WIDTH ::
          field[i, j] == if (k > 0 && j == x0) || (k > 1 && j == x1) || (j == x && i < y)
                         then SinkholeCell(pos, i, j, old(field[i, j])) else old(field[i, j])
      {
        if field[y, x] == WALL_COLOR {
          field[y, x] := 0;
        }
      }
    }
    SnapIs(field, Sinkhole(old(Snap(field)), pos));
  }

  /** put_sinkhole only turns wall into background, and only in the two drain columns of the slot's floor. */
  lemma SinkholeKeepsField(g: Grid, pos: int)
    requires IsField(g)
    ensures IsField(Sinkhole(g, pos))
  {
  }

  lemma SinkholeChangesOnlyDrains(g: Grid, pos: int)
    requires Shaped(g, ROWS, WIDTH)
    ensures var r := Sinkhole(g, pos);
      forall y, x | 0 <= y < ROWS && 0 <= x < WIDTH ::
        r[y][x] != g[y][x] ==> IsSinkholeCell(pos, y, x) && g[y][x] == WALL_COLOR && r[y][x] == 0
  {
  }

  // ---------------------------------------------------------------- put_digit

  /** Phase 1: wall pixels of the slot above its floor (rows 0-17) become background. */
  function ClearedCell(pos: int, y: int, x: int, v: int): int {
    if InSlot(pos, x) && 0 <= y < 6 * DIGIT_DISP_ZOOM && v == WALL_COLOR then 0 else v
  }

  /** Phase 2: the floor rows 18-20 of the slot become wall. */
  function FlooredCell(pos: int, y: int, x: int, v: int): int {
    if InSlot(pos, x) && 6 * DIGIT_DISP_ZOOM <= y < 7 * DIGIT_DISP_ZOOM then WALL_COLOR
    else ClearedCell(pos, y, x, v)
  }

  /** The pixel block (glyph row, glyph column) a cell of slot `pos` at rows 3-17 belongs to. */
  predicate InWallBlock(pos: int, digit: int, y: int, x: int)
    requires IsDigit(digit)
  {
    && InSlot(pos, x) && DIGIT_DISP_ZOOM <= y < 6 * DIGIT_DISP_ZOOM
    && IsWallPixel(digit, y / DIGIT_DISP_ZOOM - 1, (x - SlotLeft(pos)) / DIGIT_DISP_ZOOM)
  }

  /** Phase 3: every block of a `'0'` pixel becomes wall. */
  function DigitCell(pos: int, digit: int, y: int, x: int, v: int): int
    requires IsDigit(digit)
  {
    if InWallBlock(pos, digit, y, x) then WALL_COLOR else FlooredCell(pos, y, x, v)
  }

  function PutDigitGrid(g: Grid, pos: int, digit: int): Grid
    requires IsDigit(digit)
  {
    MapCells(g, (y, x, v) => DigitCell(pos, digit, y, x, v))
  }

  /** A cell after the blocks of glyph pixels before (dy, dx), in row-major order, have been stamped. */
  function StampedCell(pos: int, digit: int, dy: int, dx: int, y: int, x: int, v: int): int
    requires IsDigit(digit)
  {
    if InWallBlock(pos, digit, y, x) &&
       (y / DIGIT_DISP_ZOOM - 1 < dy || (y / DIGIT_DISP_ZOOM - 1 == dy && (x - SlotLeft(pos)) / DIGIT_DISP_ZOOM < dx))
    then WALL_COLOR
    else FlooredCell(pos, y, x, v)
  }

  /** The block drawn for glyph pixel (dy, dx) of slot `pos` is exactly that pixel's cells. */
  lemma BlockRect(pos: int, dy: int, dx: int, y: int, x: int)
    requires IsSlot(pos) && 0 <= dy < 5 && 0 <= dx < 3
    ensures InRect(y, x, (1 + dy) * DIGIT_DISP_ZOOM, (1 + dy + 1) * DIGIT_DISP_ZOOM,
                   (1 + pos * 4 + dx) * DIGIT_DISP_ZOOM, (1 + pos * 4 + dx + 1) * DIGIT_DISP_ZOOM)
        <==> InSlot(pos, x) && DIGIT_DISP_ZOOM <= y < 6 * DIGIT_DISP_ZOOM &&
             y / DIGIT_DISP_ZOOM - 1 == dy && (x - SlotLeft(pos)) / DIGIT_DISP_ZOOM == dx
  {
  }

  method PutDigit(field: array2<int>, pos: int, digit: int)
    requires field.Length0 == ROWS && field.Length1 == WIDTH && IsSlot(pos) && IsDigit(digit)
    modifies field
    ensures Snap(field) == PutDigitGrid(old(Snap(field)), pos, digit)
  {
    ghost var g := Snap(field);
    var left, right := SlotLeft(pos), (1 + pos * 4 + 3) * DIGIT_DISP_ZOOM;
    ClearInRect(field, 0, 6 * DIGIT_DISP_ZOOM, left, right, WALL_COLOR);
    FillRect(field, 6 * DIGIT_DISP_ZOOM, 7 * DIGIT_DISP_ZOOM, left, right, WALL_COLOR);
    for dy := 0 to 5
      invariant forall i, j | 0 <= i < ROWS && 0 <= j < WIDTH :: field[i, j] == StampedCell(pos, digit, dy, 0, i, j, g[i][j])
    {
      for dx := 0 to 3
        invariant forall i, j | 0 <= i < ROWS && 0 <= j < WIDTH :: field[i, j] == StampedCell(pos, digit, dy, dx, i, j, g[i][j])
      {
        if Pixel(digit, dy, dx) == '0' {
          FillRect(field, (1 + dy) * DIGIT_DISP_ZOOM, (1 + dy + 1) * DIGIT_DISP_ZOOM,
                   (1 + pos * 4 + dx) * DIGIT_DISP_ZOOM, (1 + pos * 4 + dx + 1) * DIGIT_DISP_ZOOM, WALL_COLOR);
        }
        forall i, j | 0 <= i < ROWS && 0 <= j < WIDTH
          ensures field[i, j] == StampedCell(pos, digit, dy, dx + 1, i, j, g[i][j])
        {
          BlockRect(pos, dy, dx, i, j);
        }
      }
    }
    SnapIs(field, PutDigitGrid(g, pos, digit));
  }

  /**
   * What put_digit leaves in slot `pos`: a wall floor, wall on every `'0'`
   * block, former wall turned to background elsewhere in the slot, every
   * other value kept, and nothing outside the slot's columns (or in the
   * hidden row) touched.
   */
  lemma PutDigitShape(g: Grid, pos: int, digit: int)
    requires Shaped(g, ROWS, WIDTH) && IsSlot(pos) && IsDigit(digit)
    ensures var r := PutDigitGrid(g, pos, digit);
      && (forall y, x | 6 * DIGIT_DISP_ZOOM <= y < 7 * DIGIT_DISP_ZOOM && InSlot(pos, x) :: r[y][x] == WALL_COLOR)
      && (forall y, x | 0 <= y < ROWS && 0 <= x < WIDTH && InWallBlock(pos, digit, y, x) :: r[y][x] == WALL_COLOR)
      && (forall y, x | 0 <= y < 6 * DIGIT_DISP_ZOOM && InSlot(pos, x) && !InWallBlock(pos, digit, y, x) ::
            r[y][x] == if g[y][x] == WALL_COLOR then 0 else g[y][x])
      && (forall y, x | 0 <= y < ROWS && 0 <= x < WIDTH && (!InSlot(pos, x) || y == HEIGHT) :: r[y][x] == g[y][x])
  {
  }

  lemma PutDigitKeepsField(g: Grid, pos: int, digit: int)
    requires IsField(g) && IsDigit(digit)
    ensures IsField(PutDigitGrid(g, pos, digit))
  {
  }

  lemma PutDigitIdempotent(g: Grid, pos: int, digit: int)
    requires Shaped(g, ROWS, WIDTH) && IsSlot(pos) && IsDigit(digit)
    ensures PutDigitGrid(PutDigitGrid(g, pos, digit), pos, digit) == PutDigitGrid(g, pos, digit)
  {
    GridExt(PutDigitGrid(PutDigitGrid(g, pos, digit), pos, digit), PutDigitGrid(g, pos, digit));
  }

  // ---------------------------------------------------------------- update_colon

  predicate IsColonCell(y: int, x: int) { x == COLON_X && (y == COLON_Y1 || y == COLON_Y2) }

  /** During the first three seconds of every six the colon is wall; otherwise a wall colon cell opens. */
  function ColonCell(second: int, y: int, x: int, v: int): int {
    if !IsColonCell(y, x) then v
    else if second % 6 < 3 then (if v != WALL_COLOR then WALL_COLOR else v)
    else if v == WALL_COLOR then 0
    else v
  }

  function ColonGrid(g: Grid, second: int): Grid {
    MapCells(g, (y, x, v) => ColonCell(second, y, x, v))
  }

  lemma ColonShape(g: Grid, second: int)
    requires Shaped(g, ROWS, WIDTH)
    ensures var r := ColonGrid(g, second);
      && (forall y, x | 0 <= y < ROWS && 0 <= x < WIDTH && !IsColonCell(y, x) :: r[y][x] == g[y][x])
      && (second % 6 < 3 ==> r[COLON_Y1][COLON_X] == WALL_COLOR && r[COLON_Y2][COLON_X] == WALL_COLOR)
      && (second % 6 >= 3 ==> forall y | y == COLON_Y1 || y == COLON_Y2 ::
            r[y][COLON_X] == if g[y][COLON_X] == WALL_COLOR then 0 else g[y][COLON_X])
  {
  }

  lemma ColonIdempotent(g: Grid, second: int)
    requires Shaped(g, ROWS, WIDTH)
    ensures ColonGrid(ColonGrid(g, second), second) == ColonGrid(g, second)
  {
    GridExt(ColonGrid(ColonGrid(g, second), second), ColonGrid(g, second));
  }

  lemma ColonKeepsField(g: Grid, second: int)
    requires IsField(g)
    ensures IsField(ColonGrid(g, second))
  {
  }

  /** `update_colon`: sets or clears the colon cell of rows COLON_Y1 and COLON_Y2, in that order. */
  method SetColon(field: array2<int>, second: int)
    requires field.Length0 == ROWS && field.Length1 == WIDTH
    modifies field
    ensures Snap(field) == ColonGrid(old(Snap(field)), second)
  {
    ghost var g := Snap(field);
    for k := 0 to 2
      invariant forall i, j | 0 <= i < ROWS && 0 <= j < WIDTH ::
        field[i, j] == if (k > 0 && i == COLON_Y1) || (k > 1 && i == COLON_Y2) then ColonCell(second, i, j, g[i][j]) else g[i][j]
    {
      var y := if k == 0 then COLON_Y1 else COLON_Y2;
      if second % 6 < 3 {
        if field[y, COLON_X] != WALL_COLOR {
          field[y, COLON_X] := WALL_COLOR;
        }
      } else {
        if field[y, COLON_X] == WALL_COLOR {
          field[y, COLON_X] := 0;
        }
      }
    }
    SnapIs(field, ColonGrid(g, second));
  }
}
