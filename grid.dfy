/**
 * The cell grid shared by both snapshots of the water clock: a field is a
 * two-dimensional array of small integers, indexed `field[y, x]` (row, column),
 * exactly as the program indexes its list of rows.
 * `Snap` gives the value of the array as a sequence of rows, so that every
 * in-place operation can be specified by a pure function on grids.
 */
module Grid {

  /** A field's value: a sequence of rows, each a sequence of cells. */
  type Grid = seq<seq<int>>

  predicate Shaped(g: Grid, rows: nat, cols: nat) {
    |g| == rows && forall y | 0 <= y < |g| :: |g[y]| == cols
  }

  /** Cell (y, x) set to v, on a value. */
  function SetCell(g: Grid, y: int, x: int, v: int): (r: Grid)
    requires 0 <= y < |g| && 0 <= x < |g[y]|
    ensures |r| == |g| && forall i | 0 <= i < |g| :: |r[i]| == |g[i]|
    ensures r[y][x] == v
    ensures forall i, j | 0 <= i < |g| && 0 <= j < |g[i]| && (i != y || j != x) :: r[i][j] == g[i][j]
  {
    g[y := g[y][x := v]]
  }

  /** A grid whose every cell is rewritten by `f(y, x, value)`. */
  function MapCells(g: Grid, f: (int, int, int) -> int): (r: Grid)
    ensures |r| == |g| && forall y | 0 <= y < |g| :: |r[y]| == |g[y]|
    ensures forall y, x | 0 <= y < |g| && 0 <= x < |g[y]| :: r[y][x] == f(y, x, g[y][x])
  {
    seq(|g|, y requires 0 <= y < |g| => seq(|g[y]|, x requires 0 <= x < |g[y]| => f(y, x, g[y][x])))
  }

  /** The value at (y, x) moves to (y2, x2) and (y, x) becomes background. */
  function Move(g: Grid, y: int, x: int, y2: int, x2: int): (r: Grid)
    requires 0 <= y < |g| && 0 <= x < |g[y]| && 0 <= y2 < |g| && 0 <= x2 < |g[y2]|
    ensures |r| == |g| && forall i | 0 <= i < |g| :: |r[i]| == |g[i]|
  {
    SetCell(SetCell(g, y2, x2, g[y][x]), y, x, 0)
  }

  /** The values at (y, x) and (y2, x2) change places. */
  function Swap(g: Grid, y: int, x: int, y2: int, x2: int): (r: Grid)
    requires 0 <= y < |g| && 0 <= x < |g[y]| && 0 <= y2 < |g| && 0 <= x2 < |g[y2]|
    ensures |r| == |g| && forall i | 0 <= i < |g| :: |r[i]| == |g[i]|
  {
    SetCell(SetCell(g, y, x, g[y2][x2]), y2, x2, g[y][x])
  }

  /** Two grids of one shape that agree on every cell are equal. */
  lemma GridExt(g: Grid, h: Grid)
    requires |g| == |h| && forall y | 0 <= y < |g| :: |g[y]| == |h[y]|
    requires forall y, x | 0 <= y < |g| && 0 <= x < |g[y]| :: g[y][x] == h[y][x]
    ensures g == h
  {
    forall y | 0 <= y < |g|
      ensures g[y] == h[y]
    {
    }
  }

  /** The multiset of all cell values of a grid. */
  function Census(g: Grid): multiset<int> {
    if |g| == 0 then multiset{} else multiset(g[0]) + Census(g[1..])
  }

  /** Replacing one row changes the census by exactly that row's values. */
  lemma {:induction false} CensusReplaceRow(g: Grid, y: nat, row: seq<int>)
    requires y < |g|
    ensures Census(g[y := row]) + multiset(g[y]) == Census(g) + multiset(row)
  {
    var h := g[y := row];
    assert Census(h) == multiset(h[0]) + Census(h[1..]);
    assert Census(g) == multiset(g[0]) + Census(g[1..]);
    if y > 0 {
      assert h[1..] == g[1..][y - 1 := row];
      assert h[0] == g[0] && g[1..][y - 1] == g[y];
      CensusReplaceRow(g[1..], y - 1, row);
      calc {
        Census(h) + multiset(g[y]);
        multiset(g[0]) + (Census(g[1..][y - 1 := row]) + multiset(g[1..][y - 1]));
        multiset(g[0]) + (Census(g[1..]) + multiset(row));
        Census(g) + multiset(row);
      }
    } else {
      assert h[1..] == g[1..];
    }
  }

  /** Writing one cell removes its old value from the census and adds the new one. */
  lemma CensusSetCell(g: Grid, y: int, x: int, v: int)
    requires 0 <= y < |g| && 0 <= x < |g[y]|
    ensures Census(SetCell(g, y, x, v)) + multiset{g[y][x]} == Census(g) + multiset{v}
  {
    var row := g[y][x := v];
    var h := SetCell(g, y, x, v);
    assert Census(h) + multiset(g[y]) == Census(g) + multiset(row) by {
      assert h == g[y := row];
      CensusReplaceRow(g, y, row);
    }
    assert multiset(row) + multiset{g[y][x]} == multiset(g[y]) + multiset{v};
    Rebalance(Census(h), Census(g), multiset(row), multiset(g[y]), g[y][x], v);
  }

  /** Multiset arithmetic behind CensusSetCell: a + s == b + r and r + {u} == s + {w} give a + {u} == b + {w}. */
  lemma Rebalance(a: multiset<int>, b: multiset<int>, r: multiset<int>, s: multiset<int>, u: int, w: int)
    requires a + s == b + r && r + multiset{u} == s + multiset{w}
    ensures a + multiset{u} == b + multiset{w}
  {
    forall e
      ensures (a + multiset{u})[e] == (b + multiset{w})[e]
    {
      assert (a + s)[e] == (b + r)[e];
      assert (r + multiset{u})[e] == (s + multiset{w})[e];
    }
  }

  /** One value added to both sides cancels. */
  lemma CancelOne(a: multiset<int>, b: multiset<int>, u: int)
    requires a + multiset{u} == b + multiset{u}
    ensures a == b
  {
    forall e
      ensures a[e] == b[e]
    {
      assert (a + multiset{u})[e] == (b + multiset{u})[e];
    }
  }

  /** Moving a value onto a background cell keeps the census. */
  lemma MoveCensus(g: Grid, y: int, x: int, y2: int, x2: int)
    requires 0 <= y < |g| && 0 <= x < |g[y]| && 0 <= y2 < |g| && 0 <= x2 < |g[y2]|
    requires (y, x) != (y2, x2) && g[y2][x2] == 0
    ensures Census(Move(g, y, x, y2, x2)) == Census(g)
  {
    var c := g[y][x];
    var h := SetCell(g, y2, x2, c);
    var k := SetCell(h, y, x, 0);
    assert Census(h) + multiset{0} == Census(g) + multiset{c} by {
      CensusSetCell(g, y2, x2, c);
    }
    assert Census(k) + multiset{c} == Census(h) + multiset{0} by {
      CensusSetCell(h, y, x, 0);
      assert h[y][x] == c;
    }
    CancelOne(Census(k), Census(g), c);
  }

  /** Exchanging two values keeps the census. */
  lemma SwapCensus(g: Grid, y: int, x: int, y2: int, x2: int)
    requires 0 <= y < |g| && 0 <= x < |g[y]| && 0 <= y2 < |g| && 0 <= x2 < |g[y2]|
    ensures Census(Swap(g, y, x, y2, x2)) == Census(g)
  {
    var c, n := g[y][x], g[y2][x2];
    var h := SetCell(g, y, x, n);
    var k := SetCell(h, y2, x2, c);
    assert Census(h) + multiset{c} == Census(g) + multiset{n} by {
      CensusSetCell(g, y, x, n);
    }
    assert Census(k) + multiset{n} == Census(h) + multiset{c} by {
      CensusSetCell(h, y2, x2, c);
      assert h[y2][x2] == n;
    }
    CancelOne(Census(k), Census(g), n);
  }

  /** Every value of the census occurs in some cell. */
  lemma {:induction false} CensusMember(g: Grid, v: int)
    requires v in Census(g)
    ensures exists i, j :: 0 <= i < |g| && 0 <= j < |g[i]| && g[i][j] == v
  {
    if v in multiset(g[0]) {
      var j :| 0 <= j < |g[0]| && g[0][j] == v;
      assert g[0][j] == v;
    } else {
      CensusMember(g[1..], v);
      var i, j :| 0 <= i < |g[1..]| && 0 <= j < |g[1..][i]| && g[1..][i][j] == v;
      assert g[i + 1][j] == v;
    }
  }

  /** The value of a two-dimensional array, row by row. */
  function Snap(a: array2<int>): (g: Grid)
    reads a
    ensures Shaped(g, a.Length0, a.Length1)
    ensures forall i, j | 0 <= i < a.Length0 && 0 <= j < a.Length1 :: g[i][j] == a[i, j]
  {
    seq(a.Length0, i requires 0 <= i < a.Length0 reads a =>
      seq(a.Length1, j requires 0 <= j < a.Length1 reads a => a[i, j]))
  }

  /** An array whose cells agree with a grid of its shape has that grid as its value. */
  lemma SnapIs(a: array2<int>, h: Grid)
    requires Shaped(h, a.Length0, a.Length1)
    requires forall i, j | 0 <= i < a.Length0 && 0 <= j < a.Length1 :: a[i, j] == h[i][j]
    ensures Snap(a) == h
  {
    var g := Snap(a);
    forall i | 0 <= i < a.Length0
      ensures g[i] == h[i]
    {
      assert |g[i]| == |h[i]|;
    }
  }

  /** Stores v at (y, x). */
  method Store(a: array2<int>, y: int, x: int, v: int)
    requires 0 <= y < a.Length0 && 0 <= x < a.Length1
    modifies a
    ensures Snap(a) == SetCell(old(Snap(a)), y, x, v)
  {
    ghost var g := Snap(a);
    a[y, x] := v;
    SnapIs(a, SetCell(g, y, x, v));
  }

  /** Moves the value at (y, x) to (y2, x2) and clears (y, x). */
  method MoveCell(a: array2<int>, y: int, x: int, y2: int, x2: int)
    requires 0 <= y < a.Length0 && 0 <= x < a.Length1 && 0 <= y2 < a.Length0 && 0 <= x2 < a.Length1
    modifies a
    ensures Snap(a) == Move(old(Snap(a)), y, x, y2, x2)
  {
    Store(a, y2, x2, a[y, x]);
    Store(a, y, x, 0);
  }

  /** The exchange of the values of two cells. */
  method Exchange(a: array2<int>, y: int, x: int, y2: int, x2: int)
    requires 0 <= y < a.Length0 && 0 <= x < a.Length1 && 0 <= y2 < a.Length0 && 0 <= x2 < a.Length1
    modifies a
    ensures Snap(a) == Swap(old(Snap(a)), y, x, y2, x2)
  {
    var c, n := a[y, x], a[y2, x2];
    Store(a, y, x, n);
    Store(a, y2, x2, c);
  }

  predicate InRect(y: int, x: int, top: int, bottom: int, left: int, right: int) {
    top <= y < bottom && left <= x < right
  }

  /** Sets every cell of rows top to bottom-1 and columns left to right-1 to v, row by row. */
  method FillRect(a: array2<int>, top: int, bottom: int, left: int, right: int, v: int)
    requires 0 <= top <= bottom <= a.Length0 && 0 <= left <= right <= a.Length1
    modifies a
    ensures forall i, j | 0 <= i < a.Length0 && 0 <= j < a.Length1 ::
      a[i, j] == if InRect(i, j, top, bottom, left, right) then v else old(a[i, j])
  {
    for y := top to bottom
      invariant forall i, j | 0 <= i < a.Length0 && 0 <= j < a.Length1 ::
        a[i, j] == if InRect(i, j, top, y, left, right) then v else old(a[i, j])
    {
      for x := left to right
        invariant forall i, j | 0 <= i < a.Length0 && 0 <= j < a.Length1 ::
          a[i, j] == if InRect(i, j, top, y, left, right) || (i == y && left <= j < x) then v else old(a[i, j])
      {
        a[y, x] := v;
      }
    }
  }

  /** Clears every wall cell of rows top to bottom-1 and columns left to right-1, row by row. */
  method ClearInRect(a: array2<int>, top: int, bottom: int, left: int, right: int, wall: int)
    requires 0 <= top <= bottom <= a.Length0 && 0 <= left <= right <= a.Length1
    modifies a
    ensures forall i, j | 0 <= i < a.Length0 && 0 <= j < a.Length1 ::
      a[i, j] == if InRect(i, j, top, bottom, left, right) && old(a[i, j]) == wall then 0 else old(a[i, j])
  {
    for y := top to bottom
      invariant forall i, j | 0 <= i < a.Length0 && 0 <= j < a.Length1 ::
        a[i, j] == if InRect(i, j, top, y, left, right) && old(a[i, j]) == wall then 0 else old(a[i, j])
    {
      for x := left to right
        invariant forall i, j | 0 <= i < a.Length0 && 0 <= j < a.Length1 ::
          a[i, j] == if (InRect(i, j, top, y, left, right) || (i == y && left <= j < x)) && old(a[i, j]) == wall
                     then 0 else old(a[i, j])
      {
        if a[y, x] == wall {
          a[y, x] := 0;
        }
      }
    }
  }
}
