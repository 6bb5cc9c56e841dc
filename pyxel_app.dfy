/**
 * `App` of the older snapshot (the pyxel version): the displayed digits and
 * the restamp countdown, the colour key, and one `update` with its
 * `field_update`. `datetime.now()`, `pyxel.btnp(pyxel.KEY_C)`,
 * `pyxel.frame_count` and the random module are parameters.
 */
module PyxelApp {
  import opened Grid
  import opened Glyphs
  import opened Display
  import opened PyxelField
  import opened PyxelLiquid

  // ---------------------------------------------------------------- drains and restamping

  /** `remove_bottom_digit` on each slot of `ps`, in order. */
  function BottomsRemovedAt(g: Grid, ps: seq<int>): (r: Grid)
    requires IsShape(g) && IsSlotList(ps)
    ensures IsShape(r)
    decreases |ps|
  {
    if ps == [] then g else BottomRemoved(BottomsRemovedAt(g, ps[..|ps| - 1]), ps[|ps| - 1])
  }

  /** `put_digit` of digit `ds[p]` on each slot p of `ps`, in order. */
  function PutDigitsAt(g: Grid, ps: seq<int>, ds: seq<int>): (r: Grid)
    requires IsShape(g) && IsSlotList(ps) && IsDisplay(ds)
    ensures IsShape(r)
    decreases |ps|
  {
    if ps == [] then g else PutDigitGrid(PutDigitsAt(g, ps[..|ps| - 1], ds), ps[|ps| - 1], ds[ps[|ps| - 1]])
  }

  /** Cell (y, x) is a drain cell of one of the slots in `ps`. */
  predicate Drained(ps: seq<int>, y: int, x: int) {
    exists i :: 0 <= i < |ps| && IsDrainCell(ps[i], y, x)
  }

  lemma DrainedSnoc(ps: seq<int>, y: int, x: int)
    requires ps != []
    ensures Drained(ps, y, x) <==> Drained(ps[..|ps| - 1], y, x) || IsDrainCell(ps[|ps| - 1], y, x)
  {
    var front := ps[..|ps| - 1];
    if Drained(ps, y, x) && !IsDrainCell(ps[|ps| - 1], y, x) {
      var i :| 0 <= i < |ps| && IsDrainCell(ps[i], y, x);
      assert front[i] == ps[i];
    }
    if Drained(front, y, x) {
      var i :| 0 <= i < |front| && IsDrainCell(front[i], y, x);
      assert ps[i] == front[i];
    }
  }

  /** Removing the bottoms of the listed slots clears their drain cells and changes nothing else. */
  lemma {:induction false} BottomsRemovedOnlyDrains(g: Grid, ps: seq<int>)
    requires IsField(g) && IsSlotList(ps)
    ensures var r := BottomsRemovedAt(g, ps);
      && IsField(r)
      && (forall y, x | 0 <= y < ROWS && 0 <= x < WIDTH && Drained(ps, y, x) :: r[y][x] == 0)
      && (forall y, x | 0 <= y < ROWS && 0 <= x < WIDTH && r[y][x] != g[y][x] :: Drained(ps, y, x))
    decreases |ps|
  {
    if ps != [] {
      var front, last := ps[..|ps| - 1], ps[|ps| - 1];
      var h := BottomsRemovedAt(g, front);
      var r := BottomsRemovedAt(g, ps);
      assert r == BottomRemoved(h, last);
      BottomsRemovedOnlyDrains(g, front);
      assert IsField(r) by {
        BottomRemovedKeepsField(h, last);
      }
      BottomRemovedExactly(h, last);
      forall y, x | 0 <= y < ROWS && 0 <= x < WIDTH
        ensures (Drained(ps, y, x) ==> r[y][x] == 0) && (r[y][x] != g[y][x] ==> Drained(ps, y, x))
      {
        DrainedSnoc(ps, y, x);
      }
    }
  }

  lemma {:induction false} PutDigitsKeepField(g: Grid, ps: seq<int>, ds: seq<int>)
    requires IsField(g) && IsSlotList(ps) && IsDisplay(ds)
    ensures IsField(PutDigitsAt(g, ps, ds))
    decreases |ps|
  {
    if ps != [] {
      PutDigitsKeepField(g, ps[..|ps| - 1], ds);
      PutDigitKeepsField(PutDigitsAt(g, ps[..|ps| - 1], ds), ps[|ps| - 1], ds[ps[|ps| - 1]]);
    }
  }

  /** Stamps digit `ds[p]` into each slot p of `ps`, in order. */
  method StampDigits(field: array2<int>, ps: seq<int>, ds: seq<int>)
    requires field.Length0 == ROWS && field.Length1 == WIDTH && IsSlotList(ps) && IsDisplay(ds)
    modifies field
    ensures Snap(field) == PutDigitsAt(old(Snap(field)), ps, ds)
  {
    ghost var g := Snap(field);
    for k := 0 to |ps|
      invariant Snap(field) == PutDigitsAt(g, ps[..k], ds)
    {
      assert ps[..k + 1][..k] == ps[..k];
      PutDigit(field, ps[k], ds[ps[k]]);
    }
    assert ps[..|ps|] == ps;
  }

  /** The detection loop: remove the bottom of each slot whose digit changed, and list those slots. */
  method OpenDrains(field: array2<int>, ds: seq<int>, shown: seq<int>) returns (poss: seq<int>)
    requires field.Length0 == ROWS && field.Length1 == WIDTH && IsDisplay(ds) && IsDisplay(shown)
    modifies field
    ensures poss == ChangedSlots(ds, shown) && IsSlotList(poss)
    ensures Snap(field) == BottomsRemovedAt(old(Snap(field)), poss)
  {
    ghost var g := Snap(field);
    poss := [];
    for p := 0 to 4
      invariant poss == ChangedBelow(ds, shown, p)
      invariant IsSlotList(poss)
      invariant Snap(field) == BottomsRemovedAt(g, poss)
    {
      if ds[p] != shown[p] {
        ghost var before := poss;
        RemoveBottomDigit(field, p);
        poss := poss + [p];
        assert poss[..|poss| - 1] == before;
      }
    }
  }

  // ---------------------------------------------------------------- the countdown

  /**
   * The countdown after one `update`: first a non-negative countdown is
   * decremented, then a change of the time shown sets it to 40.
   */
  function NextCountdown(c: int, changed: bool): (r: int)
    ensures changed ==> r == DIGIT_UPDATE_DELAY
    ensures -1 <= c <= DIGIT_UPDATE_DELAY ==> -1 <= r <= DIGIT_UPDATE_DELAY
    ensures !changed && c >= 0 ==> r == c - 1
    ensures !changed && c < 0 ==> r == c
  {
    var ticked := if c >= 0 then c - 1 else c;
    if changed then DIGIT_UPDATE_DELAY else ticked
  }

  /** The pending slots are restamped when the decremented countdown reaches 0, before any change is seen. */
  predicate Restamps(c: int) { c >= 0 && c - 1 == 0 }

  /** The countdown after n further calls that see no change. */
  function QuietCountdown(c: int, n: nat): int
    decreases n
  {
    if n == 0 then c else QuietCountdown(NextCountdown(c, false), n - 1)
  }

  lemma {:induction false} QuietCountdownIs(c: int, n: nat)
    requires c >= -1
    ensures QuietCountdown(c, n) == if c - n >= -1 then c - n else -1
    decreases n
  {
    if n > 0 {
      QuietCountdownIs(NextCountdown(c, false), n - 1);
    }
  }

  /**
   * With the time held after a change, the digits are restamped on exactly
   * the 40th `update` after the one that saw the change; after the k-th call
   * following it the countdown is 40 - k, and from the 41st on it is -1.
   */
  lemma RestampSchedule(c0: int, k: nat)
    requires k >= 1
    ensures Restamps(QuietCountdown(NextCountdown(c0, true), k - 1)) <==> k == DIGIT_UPDATE_DELAY
    ensures QuietCountdown(NextCountdown(c0, true), k) ==
      if k <= DIGIT_UPDATE_DELAY + 1 then DIGIT_UPDATE_DELAY - k else -1
  {
    var c1 := NextCountdown(c0, true);
    QuietCountdownIs(c1, k - 1);
    QuietCountdownIs(c1, k);
  }

  /** The digit part of `update`: the countdown and its restamp, then detection and the drains. */
  function DigitStage(g: Grid, shown: seq<int>, ds: seq<int>, countdown: int, poss: seq<int>): (r: Grid)
    requires IsShape(g) && IsDisplay(shown) && IsDisplay(ds) && IsSlotList(poss)
    ensures IsShape(r)
  {
    ChangedSlotsExact(ds, shown);
    var stamped := if Restamps(countdown) then PutDigitsAt(g, poss, shown) else g;
    if ds != shown then BottomsRemovedAt(stamped, ChangedSlots(ds, shown)) else stamped
  }

  lemma DigitStageKeepsField(g: Grid, shown: seq<int>, ds: seq<int>, countdown: int, poss: seq<int>)
    requires IsField(g) && IsDisplay(shown) && IsDisplay(ds) && IsSlotList(poss)
    ensures IsField(DigitStage(g, shown, ds, countdown, poss))
  {
    ChangedSlotsExact(ds, shown);
    PutDigitsKeepField(g, poss, shown);
    var stamped := if Restamps(countdown) then PutDigitsAt(g, poss, shown) else g;
    BottomsRemovedOnlyDrains(stamped, ChangedSlots(ds, shown));
  }

  /**
   * The statements of the digit part of `update`, on the field and on the
   * shown digits, countdown and pending list passed in.
   */
  method DigitPhase(field: array2<int>, shown: seq<int>, ds: seq<int>, countdown: int, poss: seq<int>)
    returns (countdown': int, poss': seq<int>)
    requires field.Length0 == ROWS && field.Length1 == WIDTH
    requires IsDisplay(shown) && IsDisplay(ds) && IsSlotList(poss)
    modifies field
    ensures countdown' == NextCountdown(countdown, ds != shown)
    ensures poss' == (if ds != shown then ChangedSlots(ds, shown) else poss) && IsSlotList(poss')
    ensures Snap(field) == DigitStage(old(Snap(field)), shown, ds, countdown, poss)
  {
    ChangedSlotsExact(ds, shown);
    countdown', poss' := countdown, poss;
    if countdown' >= 0 {
      countdown' := countdown' - 1;
      if countdown' == 0 {
        StampDigits(field, poss', shown);
      }
    }
    if ds != shown {
      countdown' := DIGIT_UPDATE_DELAY;
      poss' := OpenDrains(field, ds, shown);
    }
  }

  // ---------------------------------------------------------------- injection and one frame

  /** Whether `field_update` drops on frame `frame`: every 11th frame in random mode, else every 14th. */
  predicate DropsOn(frame: int, randomDrop: bool) {
    if randomDrop then frame % 11 == 0 else frame % 14 == 0
  }

  /** The drop column: the drawn column in [3, WIDTH-3) in random mode, else WIDTH-3. */
  function DropColumn(randomDrop: bool, drawn: int): int {
    if randomDrop then drawn else WIDTH - 3
  }

  /** The drop at the end of `field_update`: only row 0 at the drop column changes, and only on a dropping frame. */
  function Inject(g: Grid, frame: int, randomDrop: bool, drawn: int, color: int): (r: Grid)
    requires IsShape(g) && 3 <= drawn < WIDTH - 3
    ensures IsShape(r) && 3 <= DropColumn(randomDrop, drawn) <= WIDTH - 3
    ensures DropsOn(frame, randomDrop) ==> r[0][DropColumn(randomDrop, drawn)] == color
    ensures forall y, x | 0 <= y < ROWS && 0 <= x < WIDTH && r[y][x] != g[y][x] ::
      DropsOn(frame, randomDrop) && y == 0 && x == DropColumn(randomDrop, drawn)
  {
    if DropsOn(frame, randomDrop) then SetCell(g, 0, DropColumn(randomDrop, drawn), color) else g
  }

  /** The field after `field_update`: the edge step, the bottom step, the scan with draws `d`, and the drop. */
  function FieldStep(g: Grid, d: Draws, frame: int, randomDrop: bool, drawn: int, color: int): (r: Grid)
    requires IsShape(g) && 3 <= drawn < WIDTH - 3
    ensures IsShape(r)
  {
    Inject(ScanGrid(BottomGrid(EdgeGrid(g)), d), frame, randomDrop, drawn, color)
  }

  /** A frame leaves a field a field. */
  lemma FieldStepKeepsField(g: Grid, d: Draws, frame: int, randomDrop: bool, drawn: int, color: int)
    requires IsField(g) && 3 <= drawn < WIDTH - 3 && IsLiquid(color)
    ensures IsField(FieldStep(g, d, frame, randomDrop, drawn, color))
  {
    EdgeKeepsField(g);
    BottomKeepsField(EdgeGrid(g));
    ScanConserves(BottomGrid(EdgeGrid(g)), d);
  }

  /** The statements of `field_update`. */
  method FieldPhase(field: array2<int>, d: Draws, frame: int, randomDrop: bool, drawn: int, color: int)
    requires field.Length0 == ROWS && field.Length1 == WIDTH && 3 <= drawn < WIDTH - 3
    modifies field
    ensures Snap(field) == FieldStep(old(Snap(field)), d, frame, randomDrop, drawn, color)
  {
    EdgeStep(field);
    BottomStep(field);
    MoveLiquids(field, d);
    if randomDrop {
      if frame % 11 == 0 {
        Store(field, 0, drawn, color);
      }
    } else {
      if frame % 14 == 0 {
        Store(field, 0, WIDTH - 3, color);
      }
    }
  }

  /** `field_update` on a field, which it leaves a field. */
  method FieldFrame(field: array2<int>, d: Draws, frame: int, randomDrop: bool, drawn: int, color: int)
    requires field.Length0 == ROWS && field.Length1 == WIDTH && 3 <= drawn < WIDTH - 3
    requires IsField(Snap(field)) && IsLiquid(color)
    modifies field
    ensures Snap(field) == FieldStep(old(Snap(field)), d, frame, randomDrop, drawn, color) && IsField(Snap(field))
  {
    FieldStepKeepsField(Snap(field), d, frame, randomDrop, drawn, color);
    FieldPhase(field, d, frame, randomDrop, drawn, color);
  }

  // ---------------------------------------------------------------- the app

  /** The random draws of one `update`: those of the scan and the random drop column. */
  datatype Chance = Chance(draws: Draws, drawn: int)

  /** What a frame reads and writes: the field, the digits shown, the countdown, the pending slots and the colour index. */
  datatype Stage = Stage(grid: Grid, shown: seq<int>, countdown: int, poss: seq<int>, colorIndex: int)

  predicate StageOk(st: Stage) {
    IsShape(st.grid) && IsDisplay(st.shown) && IsSlotList(st.poss) && 0 <= st.colorIndex < |LIQUID_COLORS|
  }

  /** Key C, pressed or not, then selects the next liquid colour. */
  function PressC(st: Stage, pressed: bool): (r: Stage)
    requires StageOk(st)
    ensures StageOk(r) && r.colorIndex == (if pressed then (st.colorIndex + 1) % |LIQUID_COLORS| else st.colorIndex)
    ensures r.grid == st.grid && r.shown == st.shown && r.countdown == st.countdown && r.poss == st.poss
  {
    if pressed then st.(colorIndex := (st.colorIndex + 1) % |LIQUID_COLORS|) else st
  }

  /**
   * The digit and field part of `update` at time `now` on frame `frame`: the
   * digits of `now` are shown, the countdown and pending slots follow the
   * change, and the field takes one digit stage and one `field_update` in the
   * current colour.
   */
  function NextStage(st: Stage, now: Time, chance: Chance, frame: int, randomDrop: bool): (r: Stage)
    requires StageOk(st) && IsTime(now) && 3 <= chance.drawn < WIDTH - 3
    ensures StageOk(r) && r.colorIndex == st.colorIndex && r.shown == DigitsOf(now)
  {
    var ds := DigitsOf(now);
    var changed := ds != st.shown;
    ChangedSlotsExact(ds, st.shown);
    Stage(FieldStep(DigitStage(st.grid, st.shown, ds, st.countdown, st.poss), chance.draws, frame, randomDrop,
                    chance.drawn, LIQUID_COLORS[st.colorIndex]),
          ds, NextCountdown(st.countdown, changed), if changed then ChangedSlots(ds, st.shown) else st.poss,
          st.colorIndex)
  }

  /** The field `App.__init__` builds: the initial layout with the four digits stamped in. */
  method InitialField(ds: seq<int>) returns (f: array2<int>)
    requires IsDisplay(ds)
    ensures fresh(f) && f.Length0 == ROWS && f.Length1 == WIDTH
    ensures Snap(f) == PutDigitsAt(InitialGrid(), [0, 1, 2, 3], ds) && IsField(Snap(f))
  {
    f := CreateField();
    StampDigits(f, [0, 1, 2, 3], ds);
    PutDigitsKeepField(InitialGrid(), [0, 1, 2, 3], ds);
  }

  class App {
    const field: array2<int>
    var dispDigits: seq<int>
    var dispDigitsUpdateCountdown: int
    var dispDigitsUpdatePoss: seq<int>
    /** Whether the drop point is random. */
    const randomDrop: bool
    var liquidColorIndex: int

    ghost predicate Valid()
      reads this, field
    {
      && field.Length0 == ROWS && field.Length1 == WIDTH
      && IsField(Snap(field))
      && IsDisplay(dispDigits)
      && -1 <= dispDigitsUpdateCountdown <= DIGIT_UPDATE_DELAY
      && IsSlotList(dispDigitsUpdatePoss)
      && 0 <= liquidColorIndex < |LIQUID_COLORS|
    }

    /** `App.__init__` at time `now`, short of starting pyxel. */
    constructor (now: Time, randomDrop: bool)
      requires IsTime(now)
      ensures Valid() && fresh(field)
      ensures Snap(field) == PutDigitsAt(InitialGrid(), [0, 1, 2, 3], DigitsOf(now))
      ensures dispDigits == DigitsOf(now) && dispDigitsUpdateCountdown == -1 && dispDigitsUpdatePoss == []
      ensures this.randomDrop == randomDrop && liquidColorIndex == 0
    {
      var ds := DigitsOf(now);
      var f := InitialField(ds);
      field := f;
      dispDigits := ds;
      dispDigitsUpdateCountdown := -1;
      dispDigitsUpdatePoss := [];
      this.randomDrop := randomDrop;
      liquidColorIndex := 0;
    }

    /** Key C selects the next liquid colour. */
    method NextColor(pressed: bool)
      requires Valid()
      modifies this
      ensures Valid()
      ensures liquidColorIndex == if pressed then (old(liquidColorIndex) + 1) % |LIQUID_COLORS| else old(liquidColorIndex)
      ensures dispDigits == old(dispDigits) && dispDigitsUpdateCountdown == old(dispDigitsUpdateCountdown)
      ensures dispDigitsUpdatePoss == old(dispDigitsUpdatePoss)
      ensures Current() == PressC(old(Current()), pressed)
    {
      if pressed {
        liquidColorIndex := (liquidColorIndex + 1) % |LIQUID_COLORS|;
      }
    }

    ghost function Current(): Stage
      reads field, this`dispDigits, this`dispDigitsUpdateCountdown, this`dispDigitsUpdatePoss, this`liquidColorIndex
    {
      Stage(Snap(field), dispDigits, dispDigitsUpdateCountdown, dispDigitsUpdatePoss, liquidColorIndex)
    }

    /** The digit part of `update`. */
    method UpdateDigits(ds: seq<int>)
      requires Valid() && IsDisplay(ds)
      modifies this, field
      ensures Valid()
      ensures var changed := ds != old(dispDigits);
        && dispDigits == ds
        && dispDigitsUpdatePoss == (if changed then ChangedSlots(ds, old(dispDigits)) else old(dispDigitsUpdatePoss))
        && dispDigitsUpdateCountdown == NextCountdown(old(dispDigitsUpdateCountdown), changed)
      ensures Snap(field) == DigitStage(old(Snap(field)), old(dispDigits), ds, old(dispDigitsUpdateCountdown), old(dispDigitsUpdatePoss))
      ensures liquidColorIndex == old(liquidColorIndex)
    {
      ghost var target := DigitStage(Snap(field), dispDigits, ds, dispDigitsUpdateCountdown, dispDigitsUpdatePoss);
      assert IsField(target) by {
        DigitStageKeepsField(Snap(field), dispDigits, ds, dispDigitsUpdateCountdown, dispDigitsUpdatePoss);
      }
      dispDigitsUpdateCountdown, dispDigitsUpdatePoss := DigitPhase(field, dispDigits, ds, dispDigitsUpdateCountdown, dispDigitsUpdatePoss);
      dispDigits := ds;
    }

    /** `field_update` on frame `frame`. */
    method FieldUpdate(d: Draws, frame: int, drawn: int)
      requires Valid() && 3 <= drawn < WIDTH - 3
      modifies field
      ensures Valid()
      ensures Snap(field) == FieldStep(old(Snap(field)), d, frame, randomDrop, drawn, LIQUID_COLORS[liquidColorIndex])
    {
      FieldFrame(field, d, frame, randomDrop, drawn, LIQUID_COLORS[liquidColorIndex]);
    }

    /** The digit part of `update`, then `field_update`. */
    method Advance(now: Time, chance: Chance, frame: int)
      requires Valid() && IsTime(now) && 3 <= chance.drawn < WIDTH - 3
      modifies this, field
      ensures Valid()
      ensures Current() == NextStage(old(Current()), now, chance, frame, randomDrop)
    {
      ghost var st := Current();
      UpdateDigits(DigitsOf(now));
      assert Snap(field) == DigitStage(st.grid, st.shown, DigitsOf(now), st.countdown, st.poss);
      FieldUpdate(chance.draws, frame, chance.drawn);
    }

    /** `update` at time `now` on frame `frame`, with key C pressed or not, short of the quit key. */
    method Update(now: Time, keyC: bool, chance: Chance, frame: int)
      requires Valid() && IsTime(now) && 3 <= chance.drawn < WIDTH - 3
      modifies this, field
      ensures Valid()
      ensures Current() == NextStage(PressC(old(Current()), keyC), now, chance, frame, randomDrop)
    {
      NextColor(keyC);
      Advance(now, chance, frame);
    }
  }
}
