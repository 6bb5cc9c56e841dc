/**
 * The liquid engine of the water clock (the pygame/curses snapshot): the
 * drainage at the side columns and over the bottom row, the same-species
 * clustering swap `liquid_separate`, and the bottom-to-top movement scan of
 * `BaseApp.field_update`. Each in-place method is specified by a pure
 * function on grids; the lemmas prove what the scan keeps: walls stay walls,
 * the multiset of all cell values does not change, and every cell stays a
 * background, wall or liquid cell.
 */
module ClockLiquid {
  import opened Grid
  import opened ClockField

  /** The grid value of the field array. */
  predicate IsShape(g: Grid) { Shaped(g, ROWS, WIDTH) }

  /** Walls are exactly where they were. */
  predicate SameWalls(g: Grid, h: Grid)
    requires IsShape(g) && IsShape(h)
  {
    forall y, x | 0 <= y < ROWS && 0 <= x < WIDTH :: (g[y][x] == WALL_COLOR) == (h[y][x] == WALL_COLOR)
  }

  /** `h` is a field again, with the walls and the multiset of values of `g`. */
  predicate Keeps(g: Grid, h: Grid) {
    IsShape(g) && IsShape(h) && IsField(h) && Census(h) == Census(g) && SameWalls(g, h)
  }

  /** Every cell of `h` is the cell of `g`, or both are cells other than wall. */
  predicate CellsKept(g: Grid, h: Grid)
    requires IsShape(g) && IsShape(h)
  {
    forall y, x | 0 <= y < ROWS && 0 <= x < WIDTH ::
      g[y][x] == h[y][x] || (IsCell(h[y][x]) && h[y][x] != WALL_COLOR && g[y][x] != WALL_COLOR)
  }

  lemma KeptCellsKeep(g: Grid, h: Grid)
    requires IsField(g) && IsShape(h) && CellsKept(g, h) && Census(h) == Census(g)
    ensures Keeps(g, h)
  {
  }

  // ---------------------------------------------------------------- drainage

  /** A side-column cell of a visible row. */
  predicate IsEdge(y: int, x: int) { 0 <= y < HEIGHT && (x == 0 || x == WIDTH - 1) }

  function EdgeCell(y: int, x: int, v: int): int {
    if IsEdge(y, x) && IsLiquid(v) then 0 else v
  }

  /**
   * Liquid leaves the field through the side columns of the visible rows and
   * through row HEIGHT-1 wherever the hidden row below it is background.
   */
  function DrainGrid(g: Grid): (r: Grid)
    requires IsShape(g)
    ensures IsShape(r)
    ensures forall y | 0 <= y < HEIGHT :: !IsLiquid(r[y][0]) && !IsLiquid(r[y][WIDTH - 1])
    ensures forall x | 0 <= x < WIDTH && r[HEIGHT][x] == 0 :: !IsLiquid(r[HEIGHT - 1][x])
    ensures forall y, x | 0 <= y < ROWS && 0 <= x < WIDTH ::
      r[y][x] == g[y][x] || (IsLiquid(g[y][x]) && r[y][x] == 0)
    ensures forall y, x | 0 <= y < ROWS && 0 <= x < WIDTH && !IsEdge(y, x) && y != HEIGHT - 1 :: r[y][x] == g[y][x]
  {
    MapCells(g, (y, x, v) =>
      if y == HEIGHT - 1 && |g| == ROWS && 0 <= x < |g[HEIGHT]| && g[HEIGHT][x] == 0 && IsLiquid(EdgeCell(y, x, v))
      then 0 else EdgeCell(y, x, v))
  }

  lemma DrainKeepsField(g: Grid)
    requires IsField(g)
    ensures IsField(DrainGrid(g)) && SameWalls(g, DrainGrid(g))
  {
  }

  /** The drainage loops at the head of `field_update`. */
  method Drain(field: array2<int>)
    requires field.Length0 == ROWS && field.Length1 == WIDTH
    modifies field
    ensures Snap(field) == DrainGrid(old(Snap(field)))
  {
    ghost var g := Snap(field);
    for y := 0 to HEIGHT
      invariant forall i, j | 0 <= i < ROWS && 0 <= j < WIDTH :: field[i, j] == if i < y then EdgeCell(i, j, g[i][j]) else g[i][j]
    {
      if IsLiquid(field[y, 0]) {
        field[y, 0] := 0;
      }
      if IsLiquid(field[y, WIDTH - 1]) {
        field[y, WIDTH - 1] := 0;
      }
    }
    for x := 0 to WIDTH
      invariant forall i, j | 0 <= i < ROWS && 0 <= j < WIDTH ::
        field[i, j] == if i == HEIGHT - 1 && j < x && g[HEIGHT][j] == 0 && IsLiquid(EdgeCell(i, j, g[i][j])) then 0
                       else EdgeCell(i, j, g[i][j])
    {
      if field[HEIGHT, x] == 0 && IsLiquid(field[HEIGHT - 1, x]) {
        field[HEIGHT - 1, x] := 0;
      }
    }
    SnapIs(field, DrainGrid(g));
  }

  // ---------------------------------------------------------------- liquid_separate

  /** The accumulated weights `(wx, wy)` of `liquid_separate`. */
  datatype Pull = Pull(wx: int, wy: int)

  function Plus(a: Pull, b: Pull): Pull { Pull(a.wx + b.wx, a.wy + b.wy) }

  function Abs(v: int): int { if v < 0 then -v else v }

  /** `max(-1, min(1, v))` */
  function Clamp(v: int): (r: int)
    ensures -1 <= r <= 1
    ensures (r < 0 <==> v < 0) && (r > 0 <==> v > 0)
  {
    if v < -1 then -1 else if v > 1 then 1 else v
  }

  /** What neighbour (y+dy, x+dx) adds: its offset, when it is in range, 1 to 3 steps away and of the same colour. */
  function Contribution(g: Grid, y: int, x: int, dy: int, dx: int): Pull
    requires IsShape(g) && 0 <= y < ROWS && 0 <= x < WIDTH
  {
    var yy, xx := y + dy, x + dx;
    if 0 <= yy < ROWS && 0 <= xx < WIDTH && 1 <= Abs(dx) + Abs(dy) <= 3 && g[yy][xx] == g[y][x]
    then Pull(dx, dy) else Pull(0, 0)
  }

  /** The weights of row offset dy over the first n column offsets -2, -1, ... */
  function RowPull(g: Grid, y: int, x: int, dy: int, n: nat): Pull
    requires IsShape(g) && 0 <= y < ROWS && 0 <= x < WIDTH
  {
    if n == 0 then Pull(0, 0) else Plus(RowPull(g, y, x, dy, n - 1), Contribution(g, y, x, dy, n - 3))
  }

  /** The weights over the first m row offsets -2, -1, ..., each over all five column offsets. */
  function PullOf(g: Grid, y: int, x: int, m: nat): Pull
    requires IsShape(g) && 0 <= y < ROWS && 0 <= x < WIDTH
  {
    if m == 0 then Pull(0, 0) else Plus(PullOf(g, y, x, m - 1), RowPull(g, y, x, m - 3, 5))
  }

  /** A row offset that leaves the field contributes nothing: that row is skipped. */
  lemma {:induction false} RowPullOutside(g: Grid, y: int, x: int, dy: int, n: nat)
    requires IsShape(g) && 0 <= y < ROWS && 0 <= x < WIDTH && !(0 <= y + dy < ROWS)
    ensures RowPull(g, y, x, dy, n) == Pull(0, 0)
  {
    if n > 0 {
      RowPullOutside(g, y, x, dy, n - 1);
      assert Contribution(g, y, x, dy, n - 3) == Pull(0, 0);
    }
  }

  /** Only in-range cells contribute, so at an edge the weight never points off the field. */
  lemma {:induction false} RowPullSigns(g: Grid, y: int, x: int, dy: int, n: nat)
    requires IsShape(g) && 0 <= y < ROWS && 0 <= x < WIDTH
    ensures var p := RowPull(g, y, x, dy, n);
      && (y == 0 ==> p.wy >= 0) && (y == ROWS - 1 ==> p.wy <= 0)
      && (x == 0 ==> p.wx >= 0) && (x == WIDTH - 1 ==> p.wx <= 0)
  {
    if n > 0 {
      RowPullSigns(g, y, x, dy, n - 1);
    }
  }

  lemma {:induction false} PullSigns(g: Grid, y: int, x: int, m: nat)
    requires IsShape(g) && 0 <= y < ROWS && 0 <= x < WIDTH
    ensures var p := PullOf(g, y, x, m);
      && (y == 0 ==> p.wy >= 0) && (y == ROWS - 1 ==> p.wy <= 0)
      && (x == 0 ==> p.wx >= 0) && (x == WIDTH - 1 ==> p.wx <= 0)
  {
    if m > 0 {
      PullSigns(g, y, x, m - 1);
      RowPullSigns(g, y, x, m - 3, 5);
    }
  }

  /** The neighbour a clamped weight points to is always on the field. */
  lemma TargetInRange(g: Grid, y: int, x: int)
    requires IsShape(g) && 0 <= y < ROWS && 0 <= x < WIDTH
    ensures var p := PullOf(g, y, x, 5);
      0 <= y + Clamp(p.wy) < ROWS && 0 <= x + Clamp(p.wx) < WIDTH
  {
    PullSigns(g, y, x, 5);
  }

  /** `liquid_separate(field, x, y, prefer_x)` on a value. */
  function SeparateGrid(g: Grid, y: int, x: int, preferX: bool): (r: Grid)
    requires IsShape(g) && 0 <= y < ROWS && 0 <= x < WIDTH
    ensures IsShape(r)
  {
    if !IsLiquid(g[y][x]) then g
    else
      TargetInRange(g, y, x);
      var p := PullOf(g, y, x, 5);
      var wx, wy := Clamp(p.wx), Clamp(p.wy);
      var alongX := wx != 0 && IsLiquid(g[y][x + wx]);
      var alongY := wy != 0 && IsLiquid(g[y + wy][x]);
      if preferX then
        if alongX then Swap(g, y, x, y, x + wx) else if alongY then Swap(g, y, x, y + wy, x) else g
      else
        if alongY then Swap(g, y, x, y + wy, x) else if alongX then Swap(g, y, x, y, x + wx) else g
  }

  /** Two liquid cells exchanged: the field keeps its walls and its values. */
  lemma SwapKeeps(g: Grid, y: int, x: int, y2: int, x2: int)
    requires IsField(g) && 0 <= y < ROWS && 0 <= x < WIDTH && 0 <= y2 < ROWS && 0 <= x2 < WIDTH
    requires IsLiquid(g[y][x]) && IsLiquid(g[y2][x2])
    ensures Keeps(g, Swap(g, y, x, y2, x2))
  {
    var h := Swap(g, y, x, y2, x2);
    assert Census(h) == Census(g) by {
      SwapCensus(g, y, x, y2, x2);
    }
    assert CellsKept(g, h) by {
      var h1 := SetCell(g, y, x, g[y2][x2]);
      assert h == SetCell(h1, y2, x2, g[y][x]);
      forall i, j | 0 <= i < ROWS && 0 <= j < WIDTH
        ensures g[i][j] == h[i][j] || (IsCell(h[i][j]) && h[i][j] != WALL_COLOR && g[i][j] != WALL_COLOR)
      {
        if (i, j) != (y, x) && (i, j) != (y2, x2) {
          assert h[i][j] == h1[i][j];
        }
      }
    }
    KeptCellsKeep(g, h);
  }

  /**
   * liquid_separate does nothing on a cell that is not liquid; otherwise it
   * leaves the grid alone or exchanges the cell with one orthogonal
   * neighbour that is liquid too. Either way the field keeps its walls and
   * its multiset of values.
   */
  lemma SeparateSwapsNeighbours(g: Grid, y: int, x: int, preferX: bool)
    requires IsField(g) && 0 <= y < ROWS && 0 <= x < WIDTH
    ensures var r := SeparateGrid(g, y, x, preferX);
      && (!IsLiquid(g[y][x]) ==> r == g)
      && (r == g || (exists y2, x2 :: 0 <= y2 < ROWS && 0 <= x2 < WIDTH && Abs(y2 - y) + Abs(x2 - x) == 1 &&
                       IsLiquid(g[y][x]) && IsLiquid(g[y2][x2]) && r == Swap(g, y, x, y2, x2)))
      && Keeps(g, r)
  {
    var r := SeparateGrid(g, y, x, preferX);
    if IsLiquid(g[y][x]) {
      TargetInRange(g, y, x);
      var p := PullOf(g, y, x, 5);
      var wx, wy := Clamp(p.wx), Clamp(p.wy);
      var alongX := wx != 0 && IsLiquid(g[y][x + wx]);
      var alongY := wy != 0 && IsLiquid(g[y + wy][x]);
      if alongX && (preferX || !alongY) {
        assert r == Swap(g, y, x, y, x + wx);
        assert Abs(y - y) + Abs(x + wx - x) == 1;
        SwapKeeps(g, y, x, y, x + wx);
      } else if alongY {
        assert r == Swap(g, y, x, y + wy, x);
        assert Abs(y + wy - y) + Abs(x - x) == 1;
        SwapKeeps(g, y, x, y + wy, x);
      } else {
        assert r == g;
      }
    }
  }

  lemma RowPullNext(g: Grid, y: int, x: int, dy: int, n: nat)
    requires IsShape(g) && 0 <= y < ROWS && 0 <= x < WIDTH
    ensures RowPull(g, y, x, dy, n + 1) == Plus(RowPull(g, y, x, dy, n), Contribution(g, y, x, dy, n - 2))
  {
  }

  /** The inner loop of the weights for row offset dy of cell (y, x); changes nothing. */
  method RowWeights(field: array2<int>, y: int, x: int, dy: int) returns (wx: int, wy: int)
    requires field.Length0 == ROWS && field.Length1 == WIDTH && 0 <= y < ROWS && 0 <= x < WIDTH
    requires 0 <= y + dy < ROWS
    ensures Pull(wx, wy) == RowPull(Snap(field), y, x, dy, 5)
  {
    ghost var g := Snap(field);
    var c := field[y, x];
    var yy := y + dy;
    wx, wy := 0, 0;
    for dx := -2 to 3
      invariant Pull(wx, wy) == RowPull(g, y, x, dy, dx + 2)
    {
      ghost var step := Contribution(g, y, x, dy, dx);
      RowPullNext(g, y, x, dy, dx + 2);
      var xx := x + dx;
      if xx < 0 || xx >= WIDTH {
        assert step == Pull(0, 0);
        continue;
      }
      var dist := Abs(dx) + Abs(dy);
      if !(1 <= dist <= 3) {
        assert step == Pull(0, 0);
        continue;
      }
      assert field[yy, xx] == g[yy][xx] && c == g[y][x];
      if field[yy, xx] == c {
        assert step == Pull(dx, dy);
        wx := wx + dx;
        wy := wy + dy;
      } else {
        assert step == Pull(0, 0);
      }
    }
  }

  /** Sums the weights of cell (y, x) over row offsets -2 to 2 and column offsets -2 to 2; changes nothing. */
  method SeparationPull(field: array2<int>, y: int, x: int) returns (wx: int, wy: int)
    requires field.Length0 == ROWS && field.Length1 == WIDTH && 0 <= y < ROWS && 0 <= x < WIDTH
    ensures Pull(wx, wy) == PullOf(Snap(field), y, x, 5)
  {
    ghost var g := Snap(field);
    wx, wy := 0, 0;
    for dy := -2 to 3
      invariant Pull(wx, wy) == PullOf(g, y, x, dy + 2)
    {
      var yy := y + dy;
      if yy < 0 || yy >= ROWS {
        RowPullOutside(g, y, x, dy, 5);
        continue;
      }
      var rx, ry := RowWeights(field, y, x, dy);
      wx, wy := wx + rx, wy + ry;
    }
  }

  method LiquidSeparate(field: array2<int>, x: int, y: int, preferX: bool)
    requires field.Length0 == ROWS && field.Length1 == WIDTH && 0 <= y < ROWS && 0 <= x < WIDTH
    modifies field
    ensures Snap(field) == SeparateGrid(old(Snap(field)), y, x, preferX)
  {
    ghost var g := Snap(field);
    var c := field[y, x];
    if !IsLiquid(c) {
      return;
    }
    var wx, wy := SeparationPull(field, y, x);
    TargetInRange(g, y, x);
    wx := Clamp(wx);
    wy := Clamp(wy);
    ghost var r := SeparateGrid(g, y, x, preferX);
    if preferX {
      if wx != 0 && IsLiquid(field[y, x + wx]) {
        assert r == Swap(g, y, x, y, x + wx);
        Exchange(field, y, x, y, x + wx);
      } else if wy != 0 && IsLiquid(field[y + wy, x]) {
        assert r == Swap(g, y, x, y + wy, x);
        Exchange(field, y, x, y + wy, x);
      } else {
        assert r == g;
      }
    } else {
      if wy != 0 && IsLiquid(field[y + wy, x]) {
        assert r == Swap(g, y, x, y + wy, x);
        Exchange(field, y, x, y + wy, x);
      } else if wx != 0 && IsLiquid(field[y, x + wx]) {
        assert r == Swap(g, y, x, y, x + wx);
        Exchange(field, y, x, y, x + wx);
      } else {
        assert r == g;
      }
    }
  }

  // ---------------------------------------------------------------- the movement scan

  /** The random draws of one `field_update`: the popped picks and `dsPreferX`. */
  datatype Draws = Draws(movePick: int, sepPick: int, preferX: bool)

  /** A column the scan visits: 1 to WIDTH-2. */
  predicate IsScanCell(y: int, x: int) { 0 <= y < ROWS && 1 <= x < WIDTH - 1 }

  /** Gravity: straight down onto a cell `<= 0`, else diagonally off a liquid cell, to the side `preferX` names. */
  function Fall(g: Grid, y: int, x: int, preferX: bool): (r: Grid)
    requires IsShape(g) && IsScanCell(y, x)
    ensures IsShape(r)
  {
    if !IsLiquid(g[y][x]) then g
    else if y + 1 < ROWS && g[y + 1][x] <= 0 then Move(g, y, x, y + 1, x)
    else if y + 1 < ROWS && IsLiquid(g[y + 1][x]) then
      if preferX then
        if x + 1 < WIDTH && g[y + 1][x + 1] <= 0 then Move(g, y, x, y + 1, x + 1) else g
      else
        if x - 1 >= 0 && g[y + 1][x - 1] <= 0 then Move(g, y, x, y + 1, x - 1) else g
    else g
  }

  /**
   * On the cells whose `(y + x) % 4` equals the move pick, liquid leans away
   * from an occupied side into an open one; on those whose `(y + x) % 120`
   * equals the separation pick, it clusters by `liquid_separate`.
   */
  function Migrate(g: Grid, y: int, x: int, d: Draws): (r: Grid)
    requires IsShape(g) && IsScanCell(y, x)
    ensures IsShape(r)
  {
    var c := g[y][x];
    if !IsLiquid(c) then g
    else if (y + x) % LIQUID_MOVE_INTERVAL == d.movePick then
      if g[y][x - 1] > 0 && g[y][x + 1] <= 0 then Move(g, y, x, y, x + 1)
      else if g[y][x + 1] > 0 && g[y][x - 1] <= 0 then Move(g, y, x, y, x - 1)
      else g
    else if (y + x) % LIQUID_SEP_INTERVAL == d.sepPick then SeparateGrid(g, y, x, d.preferX)
    else g
  }

  /** One visit of the inner loop body. */
  function Step(g: Grid, y: int, x: int, d: Draws): (r: Grid)
    requires IsShape(g) && IsScanCell(y, x)
    ensures IsShape(r)
  {
    Migrate(Fall(g, y, x, d.preferX), y, x, d)
  }

  /** Row y after the inner loop has visited columns 1 to x-1. */
  function ScanRow(g: Grid, y: int, x: int, d: Draws): (r: Grid)
    requires IsShape(g) && 0 <= y < ROWS && 1 <= x <= WIDTH - 1
    ensures IsShape(r)
    decreases x
  {
    if x == 1 then g else Step(ScanRow(g, y, x - 1, d), y, x - 1, d)
  }

  /** The field after the outer loop has visited rows HEIGHT down to y+1. */
  function ScanBelow(g: Grid, y: int, d: Draws): (r: Grid)
    requires IsShape(g) && -1 <= y <= HEIGHT
    ensures IsShape(r)
    decreases HEIGHT - y
  {
    if y == HEIGHT then g else ScanRow(ScanBelow(g, y + 1, d), y + 1, WIDTH - 1, d)
  }

  /** The whole movement scan of one `field_update`. */
  function ScanGrid(g: Grid, d: Draws): (r: Grid)
    requires IsShape(g)
    ensures IsShape(r)
  {
    ScanBelow(g, -1, d)
  }

  /** A cell `<= 0` of a field is background. */
  lemma Open(g: Grid, y: int, x: int)
    requires IsField(g) && 0 <= y < ROWS && 0 <= x < WIDTH && g[y][x] <= 0
    ensures g[y][x] == 0
  {
  }

  lemma MoveKeeps(g: Grid, y: int, x: int, y2: int, x2: int)
    requires IsField(g) && 0 <= y < ROWS && 0 <= x < WIDTH && 0 <= y2 < ROWS && 0 <= x2 < WIDTH
    requires IsLiquid(g[y][x]) && g[y2][x2] <= 0 && (y, x) != (y2, x2)
    ensures Keeps(g, Move(g, y, x, y2, x2))
  {
    var h := Move(g, y, x, y2, x2);
    assert g[y2][x2] == 0 by {
      Open(g, y2, x2);
    }
    assert Census(h) == Census(g) by {
      MoveCensus(g, y, x, y2, x2);
    }
    assert CellsKept(g, h) by {
      var h1 := SetCell(g, y2, x2, g[y][x]);
      assert h == SetCell(h1, y, x, 0);
      forall i, j | 0 <= i < ROWS && 0 <= j < WIDTH
        ensures g[i][j] == h[i][j] || (IsCell(h[i][j]) && h[i][j] != WALL_COLOR && g[i][j] != WALL_COLOR)
      {
        if (i, j) != (y, x) && (i, j) != (y2, x2) {
          assert h[i][j] == h1[i][j];
        }
      }
    }
    KeptCellsKeep(g, h);
  }

  lemma FallKeeps(g: Grid, y: int, x: int, preferX: bool)
    requires IsField(g) && IsScanCell(y, x)
    ensures Keeps(g, Fall(g, y, x, preferX))
  {
    if IsLiquid(g[y][x]) && y + 1 < ROWS {
      if g[y + 1][x] <= 0 {
        MoveKeeps(g, y, x, y + 1, x);
      } else if IsLiquid(g[y + 1][x]) {
        if preferX && g[y + 1][x + 1] <= 0 {
          MoveKeeps(g, y, x, y + 1, x + 1);
        } else if !preferX && g[y + 1][x - 1] <= 0 {
          MoveKeeps(g, y, x, y + 1, x - 1);
        }
      }
    }
  }

  lemma MigrateKeeps(g: Grid, y: int, x: int, d: Draws)
    requires IsField(g) && IsScanCell(y, x)
    ensures Keeps(g, Migrate(g, y, x, d))
  {
    if IsLiquid(g[y][x]) {
      if (y + x) % LIQUID_MOVE_INTERVAL == d.movePick {
        if g[y][x - 1] > 0 && g[y][x + 1] <= 0 {
          MoveKeeps(g, y, x, y, x + 1);
        } else if g[y][x + 1] > 0 && g[y][x - 1] <= 0 {
          MoveKeeps(g, y, x, y, x - 1);
        }
      } else if (y + x) % LIQUID_SEP_INTERVAL == d.sepPick {
        SeparateSwapsNeighbours(g, y, x, d.preferX);
      }
    }
  }

  lemma KeepsTrans(a: Grid, b: Grid, c: Grid)
    requires Keeps(a, b) && Keeps(b, c)
    ensures Keeps(a, c)
  {
  }

  lemma StepKeeps(g: Grid, y: int, x: int, d: Draws)
    requires IsField(g) && IsScanCell(y, x)
    ensures Keeps(g, Step(g, y, x, d))
  {
    var h := Fall(g, y, x, d.preferX);
    FallKeeps(g, y, x, d.preferX);
    MigrateKeeps(h, y, x, d);
    KeepsTrans(g, h, Step(g, y, x, d));
  }

  lemma {:induction false} ScanRowKeeps(g: Grid, y: int, x: int, d: Draws)
    requires IsField(g) && 0 <= y < ROWS && 1 <= x <= WIDTH - 1
    ensures Keeps(g, ScanRow(g, y, x, d))
    decreases x
  {
    if x > 1 {
      var h := ScanRow(g, y, x - 1, d);
      ScanRowKeeps(g, y, x - 1, d);
      StepKeeps(h, y, x - 1, d);
      KeepsTrans(g, h, ScanRow(g, y, x, d));
    }
  }

  lemma {:induction false} ScanBelowKeeps(g: Grid, y: int, d: Draws)
    requires IsField(g) && -1 <= y <= HEIGHT
    ensures Keeps(g, ScanBelow(g, y, d))
    decreases HEIGHT - y
  {
    if y < HEIGHT {
      var h := ScanBelow(g, y + 1, d);
      ScanBelowKeeps(g, y + 1, d);
      ScanRowKeeps(h, y + 1, WIDTH - 1, d);
      KeepsTrans(g, h, ScanBelow(g, y, d));
    }
  }

  /**
   * The movement scan never turns a wall into anything else nor anything into
   * a wall, and it only moves liquid onto background or exchanges two liquid
   * cells: the multiset of all cell values is the same before and after.
   */
  lemma ScanConserves(g: Grid, d: Draws)
    requires IsField(g)
    ensures var r := ScanGrid(g, d);
      IsField(r) && SameWalls(g, r) && Census(r) == Census(g)
  {
    ScanBelowKeeps(g, -1, d);
  }

  /** Gravity at one cell of the scan. */
  method FallAt(field: array2<int>, y: int, x: int, preferX: bool)
    requires field.Length0 == ROWS && field.Length1 == WIDTH && IsScanCell(y, x)
    modifies field
    ensures Snap(field) == Fall(old(Snap(field)), y, x, preferX)
  {
    var c := field[y, x];
    if !IsLiquid(c) || y + 1 >= ROWS {
      return;
    }
    if field[y + 1, x] <= 0 {
      MoveCell(field, y, x, y + 1, x);
    } else if IsLiquid(field[y + 1, x]) {
      if preferX {
        if x + 1 < WIDTH && field[y + 1, x + 1] <= 0 {
          MoveCell(field, y, x, y + 1, x + 1);
        }
      } else {
        if x - 1 >= 0 && field[y + 1, x - 1] <= 0 {
          MoveCell(field, y, x, y + 1, x - 1);
        }
      }
    }
  }

  /** Migration or clustering at one cell of the scan, on whatever gravity left there. */
  method MigrateAt(field: array2<int>, y: int, x: int, d: Draws)
    requires field.Length0 == ROWS && field.Length1 == WIDTH && IsScanCell(y, x)
    modifies field
    ensures Snap(field) == Migrate(old(Snap(field)), y, x, d)
  {
    var c := field[y, x];
    if !IsLiquid(c) {
      return;
    }
    if (y + x) % LIQUID_MOVE_INTERVAL == d.movePick {
      if field[y, x - 1] > 0 && field[y, x + 1] <= 0 {
        MoveCell(field, y, x, y, x + 1);
      } else if field[y, x + 1] > 0 && field[y, x - 1] <= 0 {
        MoveCell(field, y, x, y, x - 1);
      }
    } else if (y + x) % LIQUID_SEP_INTERVAL == d.sepPick {
      LiquidSeparate(field, x, y, d.preferX);
    }
  }

  /** The movement scan: rows from HEIGHT down to 0, columns 1 to WIDTH-2 in each. */
  method MoveLiquids(field: array2<int>, d: Draws)
    requires field.Length0 == ROWS && field.Length1 == WIDTH
    modifies field
    ensures Snap(field) == ScanGrid(old(Snap(field)), d)
  {
    ghost var g := Snap(field);
    var y := HEIGHT;
    while y >= 0
      invariant -1 <= y <= HEIGHT
      invariant Snap(field) == ScanBelow(g, y, d)
      decreases y
    {
      ghost var h := Snap(field);
      for x := 1 to WIDTH - 1
        invariant Snap(field) == ScanRow(h, y, x, d)
      {
        FallAt(field, y, x, d.preferX);
        MigrateAt(field, y, x, d);
      }
      y := y - 1;
    }
  }
}
