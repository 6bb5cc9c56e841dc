/**
 * The field and digit renderer of the older snapshot of the water clock (the
 * pyxel version): its constants, the initial field, `remove_bottom_digit`,
 * which opens the drains of a slot's floor, and `put_digit`.
 */
module PyxelField {
  import opened Grid
  import opened Glyphs
  import opened Display

  const DIGIT_DISP_ZOOM := 3
  const WIDTH := (1 + 4 * 4) * DIGIT_DISP_ZOOM      // 51
  const HEIGHT := 8 * DIGIT_DISP_ZOOM               // 24
  /** The field has one more row than the visible ones: row HEIGHT. */
  const ROWS := HEIGHT + 1
  const LIQUD_MOVE_INTERVAL := 4
  const LIQUID_COLORS: seq<int> := [5, 3, 8, 9]
  const WALL_COLOR := 13
  /** The countdown `update` sets when the time shown changes. */
  const DIGIT_UPDATE_DELAY := 40

  predicate IsLiquid(v: int) { v in LIQUID_COLORS }

  /** Every cell holds background (0), wall or one liquid colour. */
  predicate IsCell(v: int) { v == 0 || v == WALL_COLOR || IsLiquid(v) }

  predicate IsField(g: Grid) {
    Shaped(g, ROWS, WIDTH) && forall y, x | 0 <= y < ROWS && 0 <= x < WIDTH :: IsCell(g[y][x])
  }

  /** The leftmost of the nine columns of digit slot `pos`. */
  function SlotLeft(pos: int): int { (1 + pos * 4) * DIGIT_DISP_ZOOM }

  predicate InSlot(pos: int, x: int) {
    SlotLeft(pos) <= x < SlotLeft(pos) + 3 * DIGIT_DISP_ZOOM
  }

  /** The floor of a slot: rows 21-23. */
  predicate InFloor(y: int) { 7 * DIGIT_DISP_ZOOM <= y < 8 * DIGIT_DISP_ZOOM }

  // ---------------------------------------------------------------- the initial field

  /**
   * Rows 0-5 background, rows 6 to HEIGHT-1 wall, row HEIGHT background, and
   * the right-hand column of rows 3-5 wall.
   */
  function InitialCell(y: int, x: int): int {
    if DIGIT_DISP_ZOOM <= y < 2 * DIGIT_DISP_ZOOM && x == WIDTH - 1 then WALL_COLOR
    else if 2 * DIGIT_DISP_ZOOM <= y < HEIGHT then WALL_COLOR
    else 0
  }

  function InitialGrid(): (g: Grid)
    ensures IsField(g)
    ensures forall y, x | 0 <= y < ROWS && 0 <= x < WIDTH :: g[y][x] == InitialCell(y, x)
  {
    seq(ROWS, y => seq(WIDTH, x => InitialCell(y, x)))
  }

  /** The layout `App.__init__` builds before it stamps the digits. */
  lemma InitialLayout()
    ensures var g := InitialGrid();
      && |g| == HEIGHT + 1 && (forall y | 0 <= y < |g| :: |g[y]| == WIDTH)
      && (forall y, x | 0 <= y < 2 * DIGIT_DISP_ZOOM && 0 <= x < WIDTH - 1 :: g[y][x] == 0)
      && (forall y | 0 <= y < DIGIT_DISP_ZOOM :: g[y][WIDTH - 1] == 0)
      && (forall y | DIGIT_DISP_ZOOM <= y < 2 * DIGIT_DISP_ZOOM :: g[y][WIDTH - 1] == WALL_COLOR)
      && (forall y, x | 2 * DIGIT_DISP_ZOOM <= y < HEIGHT && 0 <= x < WIDTH :: g[y][x] == WALL_COLOR)
      && (forall x | 0 <= x < WIDTH :: g[HEIGHT][x] == 0)
  {
  }

  /** The field construction of `App.__init__`: the rows, then the wall cells of column WIDTH-1 in rows 3-5. */
  method CreateField() returns (field: array2<int>)
    ensures fresh(field) && field.Length0 == ROWS && field.Length1 == WIDTH
    ensures Snap(field) == InitialGrid()
  {
    field := new int[ROWS, WIDTH]((y, x) => if 2 * DIGIT_DISP_ZOOM <= y < HEIGHT then WALL_COLOR else 0);
    for y := DIGIT_DISP_ZOOM to 2 * DIGIT_DISP_ZOOM
      invariant forall i, j | 0 <= i < ROWS && 0 <= j < WIDTH ::
        field[i, j] == if DIGIT_DISP_ZOOM <= i < y && j == WIDTH - 1 then WALL_COLOR
                       else if 2 * DIGIT_DISP_ZOOM <= i < HEIGHT then WALL_COLOR else 0
    {
      field[y, WIDTH - 1] := WALL_COLOR;
    }
    SnapIs(field, InitialGrid());
  }

  // ---------------------------------------------------------------- remove_bottom_digit

  /** The drain cells of slot `pos`: floor cells in the middle column of each pixel column. */
  predicate IsDrainCell(pos: int, y: int, x: int) {
    InFloor(y) && InSlot(pos, x) && x % 3 == 1
  }

  function BottomRemovedCell(pos: int, y: int, x: int, v: int): int {
    if IsDrainCell(pos, y, x) then 0 else v
  }

  function BottomRemoved(g: Grid, pos: int): Grid {
    MapCells(g, (y, x, v) => BottomRemovedCell(pos, y, x, v))
  }

  method RemoveBottomDigit(field: array2<int>, pos: int)
    requires field.Length0 == ROWS && field.Length1 == WIDTH && IsSlot(pos)
    modifies field
    ensures Snap(field) == BottomRemoved(old(Snap(field)), pos)
  {
    ghost var g := Snap(field);
    for y := 7 * DIGIT_DISP_ZOOM to 8 * DIGIT_DISP_ZOOM
      invariant forall i, j | 0 <= i < ROWS && 0 <= j < WIDTH ::
        field[i, j] == if i < y then BottomRemovedCell(pos, i, j, g[i][j]) else g[i][j]
    {
      for x := SlotLeft(pos) to (1 + pos * 4 + 3) * DIGIT_DISP_ZOOM
        invariant forall i, j | 0 <= i < ROWS && 0 <= j < WIDTH ::
          field[i, j] == if i < y || (i == y && j < x) then BottomRemovedCell(pos, i, j, g[i][j]) else g[i][j]
      {
        if x % 3 == 1 {
          field[y, x] := 0;
        }
      }
    }
    SnapIs(field, BottomRemoved(g, pos));
  }

  /** remove_bottom_digit clears exactly the drain cells of the slot, whatever they held, and nothing else. */
  lemma BottomRemovedExactly(g: Grid, pos: int)
    requires Shaped(g, ROWS, WIDTH)
    ensures var r := BottomRemoved(g, pos);
      && Shaped(r, ROWS, WIDTH)
      && (forall y, x | 0 <= y < ROWS && 0 <= x < WIDTH && IsDrainCell(pos, y, x) :: r[y][x] == 0)
      && (forall y, x | 0 <= y < ROWS && 0 <= x < WIDTH && !IsDrainCell(pos, y, x) :: r[y][x] == g[y][x])
  {
  }

  /** A slot's drains are three cells wide in each of its three floor rows. */
  lemma DrainColumns(pos: int, x: int)
    requires IsSlot(pos)
    ensures InSlot(pos, x) && x % 3 == 1 <==> x == SlotLeft(pos) + 1 || x == SlotLeft(pos) + 4 || x == SlotLeft(pos) + 7
  {
  }

  lemma BottomRemovedKeepsField(g: Grid, pos: int)
    requires IsField(g)
    ensures IsField(BottomRemoved(g, pos))
  {
  }

  // ---------------------------------------------------------------- put_digit

  /** Phase 1: wall pixels of the slot in rows 0 to HEIGHT-1 become background. */
  function ClearedCell(pos: int, y: int, x: int, v: int): int {
    if InSlot(pos, x) && 0 <= y < HEIGHT && v == WALL_COLOR then 0 else v
  }

  /** Phase 2: the floor rows 21-23 of the slot become wall. */
  function FlooredCell(pos: int, y: int, x: int, v: int): int {
    if InSlot(pos, x) && InFloor(y) then WALL_COLOR else ClearedCell(pos, y, x, v)
  }

  /** A cell of slot `pos` at rows 6-20 inside the block of a `'0'` pixel. */
  predicate InWallBlock(pos: int, digit: int, y: int, x: int)
    requires IsDigit(digit)
  {
    && InSlot(pos, x) && 2 * DIGIT_DISP_ZOOM <= y < 7 * DIGIT_DISP_ZOOM
    && IsWallPixel(digit, y / DIGIT_DISP_ZOOM - 2, (x - SlotLeft(pos)) / DIGIT_DISP_ZOOM)
  }

  /** Phase 3: every block of a `'0'` pixel becomes wall. */
  function DigitCell(pos: int, digit: int, y: int, x: int, v: int): int
    requires IsDigit(digit)
  {
    if InWallBlock(pos, digit, y, x) then WALL_COLOR else FlooredCell(pos, y, x, v)
  }

  function PutDigitGrid(g: Grid, pos: int, digit: int): Grid
    requires IsDigit(digit)
  {
    MapCells(g, (y, x, v) => DigitCell(pos, digit, y, x, v))
  }

  /** A cell after the blocks of glyph pixels before (dy, dx), in row-major order, have been stamped. */
  function StampedCell(pos: int, digit: int, dy: int, dx: int, y: int, x: int, v: int): int
    requires IsDigit(digit)
  {
    if InWallBlock(pos, digit, y, x) &&
       (y / DIGIT_DISP_ZOOM - 2 < dy || (y / DIGIT_DISP_ZOOM - 2 == dy && (x - SlotLeft(pos)) / DIGIT_DISP_ZOOM < dx))
    then WALL_COLOR
    else FlooredCell(pos, y, x, v)
  }

  /** The block drawn for glyph pixel (dy, dx) of slot `pos` is exactly that pixel's cells. */
  lemma BlockRect(pos: int, dy: int, dx: int, y: int, x: int)
    requires IsSlot(pos) && 0 <= dy < 5 && 0 <= dx < 3
    ensures InRect(y, x, (2 + dy) * DIGIT_DISP_ZOOM, (2 + dy + 1) * DIGIT_DISP_ZOOM,
                   (1 + pos * 4 + dx) * DIGIT_DISP_ZOOM, (1 + pos * 4 + dx + 1) * DIGIT_DISP_ZOOM)
        <==> InSlot(pos, x) && 2 * DIGIT_DISP_ZOOM <= y < 7 * DIGIT_DISP_ZOOM &&
             y / DIGIT_DISP_ZOOM - 2 == dy && (x - SlotLeft(pos)) / DIGIT_DISP_ZOOM == dx
  {
  }

  method PutDigit(field: array2<int>, pos: int, digit: int)
    requires field.Length0 == ROWS && field.Length1 == WIDTH && IsSlot(pos) && IsDigit(digit)
    modifies field
    ensures Snap(field) == PutDigitGrid(old(Snap(field)), pos, digit)
  {
    ghost var g := Snap(field);
    var left, right := SlotLeft(pos), (1 + pos * 4 + 3) * DIGIT_DISP_ZOOM;
    ClearInRect(field, 0, 8 * DIGIT_DISP_ZOOM, left, right, WALL_COLOR);
    FillRect(field, 7 * DIGIT_DISP_ZOOM, 8 * DIGIT_DISP_ZOOM, left, right, WALL_COLOR);
    for dy := 0 to 5
      invariant forall i, j | 0 <= i < ROWS && 0 <= j < WIDTH :: field[i, j] == StampedCell(pos, digit, dy, 0, i, j, g[i][j])
    {
      for dx := 0 to 3
        invariant forall i, j | 0 <= i < ROWS && 0 <= j < WIDTH :: field[i, j] == StampedCell(pos, digit, dy, dx, i, j, g[i][j])
      {
        if Pixel(digit, dy, dx) == '0' {
          FillRect(field, (2 + dy) * DIGIT_DISP_ZOOM, (2 + dy + 1) * DIGIT_DISP_ZOOM,
                   (1 + pos * 4 + dx) * DIGIT_DISP_ZOOM, (1 + pos * 4 + dx + 1) * DIGIT_DISP_ZOOM, WALL_COLOR);
        }
        forall i, j | 0 <= i < ROWS && 0 <= j < WIDTH
          ensures field[i, j] == StampedCell(pos, digit, dy, dx + 1, i, j, g[i][j])
        {
          BlockRect(pos, dy, dx, i, j);
        }
      }
    }
    SnapIs(field, PutDigitGrid(g, pos, digit));
  }

  /**
   * What put_digit leaves in slot `pos`: a wall floor, wall on every `'0'`
   * block, former wall turned to background elsewhere in the slot, every
   * other value kept, and nothing outside the slot's columns (or in row
   * HEIGHT) touched.
   */
  lemma PutDigitShape(g: Grid, pos: int, digit: int)
    requires Shaped(g, ROWS, WIDTH) && IsSlot(pos) && IsDigit(digit)
    ensures var r := PutDigitGrid(g, pos, digit);
      && (forall y, x | InFloor(y) && InSlot(pos, x) :: r[y][x] == WALL_COLOR)
      && (forall y, x | 0 <= y < ROWS && 0 <= x < WIDTH && InWallBlock(pos, digit, y, x) :: r[y][x] == WALL_COLOR)
      && (forall y, x | 0 <= y < 7 * DIGIT_DISP_ZOOM && InSlot(pos, x) && !InWallBlock(pos, digit, y, x) ::
            r[y][x] == if g[y][x] == WALL_COLOR then 0 else g[y][x])
      && (forall y, x | 0 <= y < ROWS && 0 <= x < WIDTH && (!InSlot(pos, x) || y == HEIGHT) :: r[y][x] == g[y][x])
  {
  }

  lemma PutDigitKeepsField(g: Grid, pos: int, digit: int)
    requires IsField(g) && IsDigit(digit)
    ensures IsField(PutDigitGrid(g, pos, digit))
  {
  }

  lemma PutDigitIdempotent(g: Grid, pos: int, digit: int)
    requires Shaped(g, ROWS, WIDTH) && IsSlot(pos) && IsDigit(digit)
    ensures PutDigitGrid(PutDigitGrid(g, pos, digit), pos, digit) == PutDigitGrid(g, pos, digit)
  {
    GridExt(PutDigitGrid(PutDigitGrid(g, pos, digit), pos, digit), PutDigitGrid(g, pos, digit));
  }

  /** Restamping a slot undoes remove_bottom_digit on it: the floor is whole wall again. */
  lemma PutDigitClosesDrains(g: Grid, pos: int, digit: int)
    requires Shaped(g, ROWS, WIDTH) && IsSlot(pos) && IsDigit(digit)
    ensures PutDigitGrid(BottomRemoved(g, pos), pos, digit) == PutDigitGrid(g, pos, digit)
  {
    GridExt(PutDigitGrid(BottomRemoved(g, pos), pos, digit), PutDigitGrid(g, pos, digit));
  }
}
