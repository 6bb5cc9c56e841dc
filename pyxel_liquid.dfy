/**
 * The liquid engine of the older snapshot (`App.field_update` of the pyxel
 * version): the edge step at the side columns, the bottom step between rows
 * HEIGHT-1 and HEIGHT, and the bottom-to-top fall and migration scan. Each
 * in-place method is specified by a pure function on grids.
 */
module PyxelLiquid {
  import opened Grid
  import opened PyxelField

  predicate IsShape(g: Grid) { Shaped(g, ROWS, WIDTH) }

  /** Walls are exactly where they were. */
  predicate SameWalls(g: Grid, h: Grid)
    requires IsShape(g) && IsShape(h)
  {
    forall y, x | 0 <= y < ROWS && 0 <= x < WIDTH :: (g[y][x] == WALL_COLOR) == (h[y][x] == WALL_COLOR)
  }

  /** `h` is a field again, with the walls and the multiset of values of `g`. */
  predicate Keeps(g: Grid, h: Grid) {
    IsShape(g) && IsShape(h) && IsField(h) && Census(h) == Census(g) && SameWalls(g, h)
  }

  /** Every cell of `h` is the cell of `g`, or both are cells other than wall. */
  predicate CellsKept(g: Grid, h: Grid)
    requires IsShape(g) && IsShape(h)
  {
    forall y, x | 0 <= y < ROWS && 0 <= x < WIDTH ::
      g[y][x] == h[y][x] || (IsCell(h[y][x]) && h[y][x] != WALL_COLOR && g[y][x] != WALL_COLOR)
  }

  lemma KeptCellsKeep(g: Grid, h: Grid)
    requires IsField(g) && IsShape(h) && CellsKept(g, h) && Census(h) == Census(g)
    ensures Keeps(g, h)
  {
  }

  // ---------------------------------------------------------------- the edge step

  /** A side-column cell of a visible row. */
  predicate IsEdge(y: int, x: int) { 0 <= y < HEIGHT && (x == 0 || x == WIDTH - 1) }

  /** Liquid at a side column of a visible row vanishes; a negative visible cell rises by one. */
  function EdgeCell(y: int, x: int, v: int): int {
    if IsEdge(y, x) && IsLiquid(v) then 0
    else if 0 <= y < HEIGHT && v < 0 then v + 1
    else v
  }

  function EdgeGrid(g: Grid): Grid {
    MapCells(g, EdgeCell)
  }

  /**
   * After the edge step the side columns of the visible rows hold no liquid,
   * each negative visible cell has risen by exactly one, and every other
   * cell, row HEIGHT included, keeps its value.
   */
  lemma EdgeShape(g: Grid)
    requires IsShape(g)
    ensures var r := EdgeGrid(g);
      && IsShape(r)
      && (forall y | 0 <= y < HEIGHT :: !IsLiquid(r[y][0]) && !IsLiquid(r[y][WIDTH - 1]))
      && (forall y, x | 0 <= y < HEIGHT && 0 <= x < WIDTH && g[y][x] < 0 :: r[y][x] == g[y][x] + 1)
      && (forall y, x | 0 <= y < ROWS && 0 <= x < WIDTH && g[y][x] >= 0 && !(IsEdge(y, x) && IsLiquid(g[y][x])) ::
            r[y][x] == g[y][x])
      && (forall x | 0 <= x < WIDTH :: r[HEIGHT][x] == g[HEIGHT][x])
  {
  }

  /** A field has no negative cell, so on a field the edge step only drains the side columns. */
  lemma EdgeKeepsField(g: Grid)
    requires IsField(g)
    ensures IsField(EdgeGrid(g)) && SameWalls(g, EdgeGrid(g))
  {
  }

  /** The edge step at the head of `field_update`: rows 0 to HEIGHT-1, one at a time. */
  method EdgeStep(field: array2<int>)
    requires field.Length0 == ROWS && field.Length1 == WIDTH
    modifies field
    ensures Snap(field) == EdgeGrid(old(Snap(field)))
  {
    ghost var g := Snap(field);
    for y := 0 to HEIGHT
      invariant forall i, j | 0 <= i < ROWS && 0 <= j < WIDTH :: field[i, j] == if i < y then EdgeCell(i, j, g[i][j]) else g[i][j]
    {
      if IsLiquid(field[y, 0]) {
        field[y, 0] := 0;
      }
      if IsLiquid(field[y, WIDTH - 1]) {
        field[y, WIDTH - 1] := 0;
      }
      for x := 0 to WIDTH
        invariant forall i, j | 0 <= i < ROWS && 0 <= j < WIDTH ::
          field[i, j] == if i < y || (i == y && j < x) then EdgeCell(i, j, g[i][j])
                         else if i == y && (j == 0 || j == WIDTH - 1) && IsLiquid(g[i][j]) then 0
                         else g[i][j]
      {
        if field[y, x] < 0 {
          field[y, x] := field[y, x] + 1;
        }
      }
    }
    SnapIs(field, EdgeGrid(g));
  }

  // ---------------------------------------------------------------- the bottom step

  /**
   * Column by column: over a background cell of row HEIGHT, the cell of row
   * HEIGHT-1 becomes background, whatever it held; otherwise anything but
   * wall in row HEIGHT becomes background.
   */
  function BottomGrid(g: Grid): (r: Grid)
    requires IsShape(g)
    ensures IsShape(r)
  {
    MapCells(g, (y, x, v) =>
      if |g| == ROWS && 0 <= x < |g[HEIGHT]| && y == HEIGHT - 1 && g[HEIGHT][x] == 0 then 0
      else if y == HEIGHT && v != 0 && v != WALL_COLOR then 0
      else v)
  }

  /**
   * After the bottom step row HEIGHT holds only background and wall; a cell
   * of row HEIGHT-1 over background in row HEIGHT is background; above
   * anything else it is kept; the rows above are untouched.
   */
  lemma BottomShape(g: Grid)
    requires IsShape(g)
    ensures var r := BottomGrid(g);
      && (forall x | 0 <= x < WIDTH :: r[HEIGHT][x] == 0 || r[HEIGHT][x] == WALL_COLOR)
      && (forall x | 0 <= x < WIDTH :: r[HEIGHT][x] == (if g[HEIGHT][x] == WALL_COLOR then WALL_COLOR else 0))
      && (forall x | 0 <= x < WIDTH && g[HEIGHT][x] == 0 :: r[HEIGHT - 1][x] == 0)
      && (forall x | 0 <= x < WIDTH && g[HEIGHT][x] != 0 :: r[HEIGHT - 1][x] == g[HEIGHT - 1][x])
      && (forall y, x | 0 <= y < HEIGHT - 1 && 0 <= x < WIDTH :: r[y][x] == g[y][x])
  {
  }

  lemma BottomKeepsField(g: Grid)
    requires IsField(g)
    ensures IsField(BottomGrid(g))
  {
  }

  /**
   * After the edge step and then the bottom step: no liquid in the side
   * columns of rows 0..HEIGHT-1, none in row HEIGHT, background in row
   * HEIGHT-1 over each background cell of row HEIGHT, and each negative cell
   * of rows 0..HEIGHT-1 risen by one unless the bottom step cleared it.
   */
  lemma EdgeThenBottom(g: Grid)
    requires IsShape(g)
    ensures var r := BottomGrid(EdgeGrid(g));
      && (forall y | 0 <= y < HEIGHT :: !IsLiquid(r[y][0]) && !IsLiquid(r[y][WIDTH - 1]))
      && (forall x | 0 <= x < WIDTH :: !IsLiquid(r[HEIGHT][x]))
      && (forall x | 0 <= x < WIDTH && g[HEIGHT][x] == 0 :: r[HEIGHT - 1][x] == 0)
      && (forall y, x | 0 <= y < HEIGHT && 0 <= x < WIDTH && g[y][x] < 0 && (y < HEIGHT - 1 || g[HEIGHT][x] != 0) ::
            r[y][x] == g[y][x] + 1)
  {
    var e := EdgeGrid(g);
    EdgeShape(g);
    BottomShape(e);
  }

  /** The bottom step: columns 0 to WIDTH-1 of rows HEIGHT-1 and HEIGHT, one at a time. */
  method BottomStep(field: array2<int>)
    requires field.Length0 == ROWS && field.Length1 == WIDTH
    modifies field
    ensures Snap(field) == BottomGrid(old(Snap(field)))
  {
    ghost var g := Snap(field);
    ghost var r := BottomGrid(g);
    for x := 0 to WIDTH
      invariant forall i, j | 0 <= i < ROWS && 0 <= j < WIDTH :: field[i, j] == if j < x then r[i][j] else g[i][j]
    {
      if field[HEIGHT, x] == 0 {
        field[HEIGHT - 1, x] := 0;
      } else if field[HEIGHT, x] != WALL_COLOR {
        field[HEIGHT, x] := 0;
      }
    }
    SnapIs(field, r);
  }

  // ---------------------------------------------------------------- the fall and migration scan

  /**
   * The random draws of one `field_update`: `liq_choice`, and for each cell
   * of the scan whether `random.shuffle` swaps the two drops of a split.
   */
  datatype Draws = Draws(liqChoice: int, flip: (int, int) -> bool)

  /** A cell the scan visits: rows 0 to HEIGHT-1, columns 1 to WIDTH-2. */
  predicate IsScanCell(y: int, x: int) { 0 <= y < HEIGHT && 1 <= x < WIDTH - 1 }

  /**
   * A drop on a liquid cell with both lower diagonals open splits: the two
   * drops move to the diagonals, in the order the shuffle left them
   * (`pop()` takes the last one first), and both cells they left are cleared.
   */
  function Split(g: Grid, y: int, x: int, flip: bool): (r: Grid)
    requires IsShape(g) && IsScanCell(y, x)
    ensures IsShape(r)
  {
    var drops := if flip then [g[y][x], g[y + 1][x]] else [g[y + 1][x], g[y][x]];
    SetCell(SetCell(SetCell(SetCell(g, y + 1, x - 1, drops[1]), y + 1, x + 1, drops[0]), y, x, 0), y + 1, x, 0)
  }

  /**
   * Gravity: straight down onto a cell `<= 0`; off a liquid cell, split when
   * both lower diagonals are `<= 0`, else slide to the open one, left first.
   */
  function Fall(g: Grid, y: int, x: int, flip: bool): (r: Grid)
    requires IsShape(g) && IsScanCell(y, x)
    ensures IsShape(r)
  {
    var below := g[y + 1];
    if !IsLiquid(g[y][x]) then g
    else if below[x] <= 0 then Move(g, y, x, y + 1, x)
    else if IsLiquid(below[x]) then
      if below[x - 1] <= 0 then
        if below[x + 1] <= 0 then Split(g, y, x, flip)
        else Move(g, y, x, y + 1, x - 1)
      else if below[x + 1] <= 0 then Move(g, y, x, y + 1, x + 1)
      else g
    else g
  }

  /** On the cells whose `(y + x) % 4` equals `liq_choice`, liquid leans away from an occupied side into an open one. */
  function Migrate(g: Grid, y: int, x: int, liqChoice: int): (r: Grid)
    requires IsShape(g) && IsScanCell(y, x)
    ensures IsShape(r)
  {
    if IsLiquid(g[y][x]) && (y + x) % LIQUD_MOVE_INTERVAL == liqChoice then
      if g[y][x - 1] != 0 && g[y][x + 1] <= 0 then Move(g, y, x, y, x + 1)
      else if g[y][x + 1] > 0 && g[y][x - 1] <= 0 then Move(g, y, x, y, x - 1)
      else g
    else g
  }

  /** One visit of the inner loop body. */
  function Step(g: Grid, y: int, x: int, d: Draws): (r: Grid)
    requires IsShape(g) && IsScanCell(y, x)
    ensures IsShape(r)
  {
    Migrate(Fall(g, y, x, d.flip(y, x)), y, x, d.liqChoice)
  }

  /** Row y after the inner loop has visited columns 1 to x-1. */
  function ScanRow(g: Grid, y: int, x: int, d: Draws): (r: Grid)
    requires IsShape(g) && 0 <= y < HEIGHT && 1 <= x <= WIDTH - 1
    ensures IsShape(r)
    decreases x
  {
    if x == 1 then g else Step(ScanRow(g, y, x - 1, d), y, x - 1, d)
  }

  /** The field after the outer loop has visited rows HEIGHT-1 down to y+1. */
  function ScanBelow(g: Grid, y: int, d: Draws): (r: Grid)
    requires IsShape(g) && -1 <= y <= HEIGHT - 1
    ensures IsShape(r)
    decreases HEIGHT - y
  {
    if y == HEIGHT - 1 then g else ScanRow(ScanBelow(g, y + 1, d), y + 1, WIDTH - 1, d)
  }

  function ScanGrid(g: Grid, d: Draws): (r: Grid)
    requires IsShape(g)
    ensures IsShape(r)
  {
    ScanBelow(g, -1, d)
  }

  lemma Open(g: Grid, y: int, x: int)
    requires IsField(g) && 0 <= y < ROWS && 0 <= x < WIDTH && g[y][x] <= 0
    ensures g[y][x] == 0
  {
  }

  lemma MoveKeeps(g: Grid, y: int, x: int, y2: int, x2: int)
    requires IsField(g) && 0 <= y < ROWS && 0 <= x < WIDTH && 0 <= y2 < ROWS && 0 <= x2 < WIDTH
    requires IsLiquid(g[y][x]) && g[y2][x2] <= 0 && (y, x) != (y2, x2)
    ensures Keeps(g, Move(g, y, x, y2, x2))
  {
    var h := Move(g, y, x, y2, x2);
    assert g[y2][x2] == 0 by {
      Open(g, y2, x2);
    }
    assert Census(h) == Census(g) by {
      MoveCensus(g, y, x, y2, x2);
    }
    assert CellsKept(g, h) by {
      var h1 := SetCell(g, y2, x2, g[y][x]);
      assert h == SetCell(h1, y, x, 0);
      forall i, j | 0 <= i < ROWS && 0 <= j < WIDTH
        ensures g[i][j] == h[i][j] || (IsCell(h[i][j]) && h[i][j] != WALL_COLOR && g[i][j] != WALL_COLOR)
      {
        if (i, j) != (y, x) && (i, j) != (y2, x2) {
          assert h[i][j] == h1[i][j];
        }
      }
    }
    KeptCellsKeep(g, h);
  }

  lemma KeepsTrans(a: Grid, b: Grid, c: Grid)
    requires Keeps(a, b) && Keeps(b, c)
    ensures Keeps(a, c)
  {
  }

  /** A split is two moves onto background: the upper drop to one diagonal, the lower to the other. */
  lemma SplitIsTwoMoves(g: Grid, y: int, x: int, flip: bool)
    requires IsShape(g) && IsScanCell(y, x)
    ensures Split(g, y, x, flip) ==
      if flip then Move(Move(g, y + 1, x, y + 1, x - 1), y, x, y + 1, x + 1)
      else Move(Move(g, y, x, y + 1, x - 1), y + 1, x, y + 1, x + 1)
  {
    var r := Split(g, y, x, flip);
    var m := if flip then Move(Move(g, y + 1, x, y + 1, x - 1), y, x, y + 1, x + 1)
             else Move(Move(g, y, x, y + 1, x - 1), y + 1, x, y + 1, x + 1);
    GridExt(r, m);
  }

  /** Both drops of the split land on background diagonals, so the split keeps every colour's count. */
  lemma SplitKeeps(g: Grid, y: int, x: int, flip: bool)
    requires IsField(g) && IsScanCell(y, x)
    requires IsLiquid(g[y][x]) && IsLiquid(g[y + 1][x]) && g[y + 1][x - 1] <= 0 && g[y + 1][x + 1] <= 0
    ensures Keeps(g, Split(g, y, x, flip))
  {
    SplitIsTwoMoves(g, y, x, flip);
    if flip {
      var h := Move(g, y + 1, x, y + 1, x - 1);
      MoveKeeps(g, y + 1, x, y + 1, x - 1);
      MoveKeeps(h, y, x, y + 1, x + 1);
      KeepsTrans(g, h, Split(g, y, x, flip));
    } else {
      var h := Move(g, y, x, y + 1, x - 1);
      MoveKeeps(g, y, x, y + 1, x - 1);
      MoveKeeps(h, y + 1, x, y + 1, x + 1);
      KeepsTrans(g, h, Split(g, y, x, flip));
    }
  }

  lemma FallKeeps(g: Grid, y: int, x: int, flip: bool)
    requires IsField(g) && IsScanCell(y, x)
    ensures Keeps(g, Fall(g, y, x, flip))
  {
    if IsLiquid(g[y][x]) {
      if g[y + 1][x] <= 0 {
        MoveKeeps(g, y, x, y + 1, x);
      } else if IsLiquid(g[y + 1][x]) {
        if g[y + 1][x - 1] <= 0 {
          if g[y + 1][x + 1] <= 0 {
            SplitKeeps(g, y, x, flip);
          } else {
            MoveKeeps(g, y, x, y + 1, x - 1);
          }
        } else if g[y + 1][x + 1] <= 0 {
          MoveKeeps(g, y, x, y + 1, x + 1);
        }
      }
    }
  }

  lemma MigrateKeeps(g: Grid, y: int, x: int, liqChoice: int)
    requires IsField(g) && IsScanCell(y, x)
    ensures Keeps(g, Migrate(g, y, x, liqChoice))
  {
    if IsLiquid(g[y][x]) && (y + x) % LIQUD_MOVE_INTERVAL == liqChoice {
      if g[y][x - 1] != 0 && g[y][x + 1] <= 0 {
        MoveKeeps(g, y, x, y, x + 1);
      } else if g[y][x + 1] > 0 && g[y][x - 1] <= 0 {
        MoveKeeps(g, y, x, y, x - 1);
      }
    }
  }

  lemma StepKeeps(g: Grid, y: int, x: int, d: Draws)
    requires IsField(g) && IsScanCell(y, x)
    ensures Keeps(g, Step(g, y, x, d))
  {
    var h := Fall(g, y, x, d.flip(y, x));
    FallKeeps(g, y, x, d.flip(y, x));
    MigrateKeeps(h, y, x, d.liqChoice);
    KeepsTrans(g, h, Step(g, y, x, d));
  }

  lemma {:induction false} ScanRowKeeps(g: Grid, y: int, x: int, d: Draws)
    requires IsField(g) && 0 <= y < HEIGHT && 1 <= x <= WIDTH - 1
    ensures Keeps(g, ScanRow(g, y, x, d))
    decreases x
  {
    if x > 1 {
      var h := ScanRow(g, y, x - 1, d);
      ScanRowKeeps(g, y, x - 1, d);
      StepKeeps(h, y, x - 1, d);
      KeepsTrans(g, h, ScanRow(g, y, x, d));
    }
  }

  lemma {:induction false} ScanBelowKeeps(g: Grid, y: int, d: Draws)
    requires IsField(g) && -1 <= y <= HEIGHT - 1
    ensures Keeps(g, ScanBelow(g, y, d))
    decreases HEIGHT - y
  {
    if y < HEIGHT - 1 {
      var h := ScanBelow(g, y + 1, d);
      ScanBelowKeeps(g, y + 1, d);
      ScanRowKeeps(h, y + 1, WIDTH - 1, d);
      KeepsTrans(g, h, ScanBelow(g, y, d));
    }
  }

  /**
   * The fall and migration scan never changes a wall cell and never makes
   * one; it only moves liquid onto background, so the count of every colour
   * is the same before and after.
   */
  lemma ScanConserves(g: Grid, d: Draws)
    requires IsField(g)
    ensures var r := ScanGrid(g, d);
      IsField(r) && SameWalls(g, r) && Census(r) == Census(g)
  {
    ScanBelowKeeps(g, -1, d);
  }

  /** The split of gravity: both drops go to the lower diagonals and their cells are cleared. */
  method SplitAt(field: array2<int>, y: int, x: int, flip: bool)
    requires field.Length0 == ROWS && field.Length1 == WIDTH && IsScanCell(y, x)
    modifies field
    ensures Snap(field) == Split(old(Snap(field)), y, x, flip)
  {
    var drops := [field[y + 1, x], field[y, x]];
    if flip {
      drops := [field[y, x], field[y + 1, x]];
    }
    Store(field, y + 1, x - 1, drops[1]);
    Store(field, y + 1, x + 1, drops[0]);
    Store(field, y, x, 0);
    Store(field, y + 1, x, 0);
  }

  /** Gravity at one cell of the scan. */
  method FallAt(field: array2<int>, y: int, x: int, flip: bool)
    requires field.Length0 == ROWS && field.Length1 == WIDTH && IsScanCell(y, x)
    modifies field
    ensures Snap(field) == Fall(old(Snap(field)), y, x, flip)
  {
    var c := field[y, x];
    if !IsLiquid(c) {
      return;
    }
    if field[y + 1, x] <= 0 {
      MoveCell(field, y, x, y + 1, x);
    } else if IsLiquid(field[y + 1, x]) {
      if field[y + 1, x - 1] <= 0 {
        if field[y + 1, x + 1] <= 0 {
          SplitAt(field, y, x, flip);
        } else if IsLiquid(field[y, x]) {
          // the program tests the same cell again; it is liquid here
          MoveCell(field, y, x, y + 1, x - 1);
        }
      } else if field[y + 1, x + 1] <= 0 {
        if IsLiquid(field[y, x]) {
          MoveCell(field, y, x, y + 1, x + 1);
        }
      }
    }
  }

  method MigrateAt(field: array2<int>, y: int, x: int, liqChoice: int)
    requires field.Length0 == ROWS && field.Length1 == WIDTH && IsScanCell(y, x)
    modifies field
    ensures Snap(field) == Migrate(old(Snap(field)), y, x, liqChoice)
  {
    var c := field[y, x];
    if IsLiquid(c) && (y + x) % LIQUD_MOVE_INTERVAL == liqChoice {
      if field[y, x - 1] != 0 && field[y, x + 1] <= 0 {
        MoveCell(field, y, x, y, x + 1);
      } else if field[y, x + 1] > 0 && field[y, x - 1] <= 0 {
        MoveCell(field, y, x, y, x - 1);
      }
    }
  }

  /** The movement scan: rows from HEIGHT-1 down to 0, columns 1 to WIDTH-2 in each. */
  method MoveLiquids(field: array2<int>, d: Draws)
    requires field.Length0 == ROWS && field.Length1 == WIDTH
    modifies field
    ensures Snap(field) == ScanGrid(old(Snap(field)), d)
  {
    ghost var g := Snap(field);
    var y := HEIGHT - 1;
    while y >= 0
      invariant -1 <= y <= HEIGHT - 1
      invariant Snap(field) == ScanBelow(g, y, d)
      decreases y
    {
      ghost var h := Snap(field);
      for x := 1 to WIDTH - 1
        invariant Snap(field) == ScanRow(h, y, x, d)
      {
        FallAt(field, y, x, d.flip(y, x));
        MigrateAt(field, y, x, d.liqChoice);
      }
      y := y - 1;
    }
  }
}
