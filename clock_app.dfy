/**
 * `BaseApp` of the pygame/curses snapshot: the displayed digits and the
 * sinkhole countdown, the shuffled pick queues that pace migration and
 * clustering, drop injection from the shuffled colour queue, and the
 * per-frame `update`. The wall clock and the random module are parameters:
 * a `Time` for `datetime.now()`, and a `Chance` for the shuffles,
 * `random.randint` and `random.randrange` of one frame.
 */
module ClockApp {
  import opened Grid
  import opened Glyphs
  import opened Display
  import opened ClockField
  import opened ClockLiquid

  // ---------------------------------------------------------------- chance

  /**
   * The random choices of one `field_update`: the order the shuffle gives
   * each pick list it refills, the coin that decides whether sideways (x)
   * moves are tried first, and the drop offset drawn from
   * [0, DIGIT_DISP_ZOOM * 4).
   */
  datatype Chance = Chance(moveShuffled: seq<int>, sepShuffled: seq<int>, preferX: bool, dropOffset: int)

  // ---------------------------------------------------------------- sinkholes and restamping

  /** `put_sinkhole` on each slot of `ps`, in order. */
  function SinkholesAt(g: Grid, ps: seq<int>): (r: Grid)
    requires IsShape(g) && IsSlotList(ps)
    ensures IsShape(r)
    decreases |ps|
  {
    if ps == [] then g else Sinkhole(SinkholesAt(g, ps[..|ps| - 1]), ps[|ps| - 1])
  }

  /** `put_digit` of digit `ds[p]` on each slot p of `ps`, in order. */
  function PutDigitsAt(g: Grid, ps: seq<int>, ds: seq<int>): (r: Grid)
    requires IsShape(g) && IsSlotList(ps) && IsDisplay(ds)
    ensures IsShape(r)
    decreases |ps|
  {
    if ps == [] then g else PutDigitGrid(PutDigitsAt(g, ps[..|ps| - 1], ds), ps[|ps| - 1], ds[ps[|ps| - 1]])
  }

  /** Cell (y, x) is a sinkhole cell of one of the slots in `ps`. */
  predicate Drained(ps: seq<int>, y: int, x: int) {
    exists i :: 0 <= i < |ps| && IsSinkholeCell(ps[i], y, x)
  }

  lemma DrainedSnoc(ps: seq<int>, y: int, x: int)
    requires ps != []
    ensures Drained(ps, y, x) <==> Drained(ps[..|ps| - 1], y, x) || IsSinkholeCell(ps[|ps| - 1], y, x)
  {
    var front := ps[..|ps| - 1];
    if Drained(ps, y, x) && !IsSinkholeCell(ps[|ps| - 1], y, x) {
      var i :| 0 <= i < |ps| && IsSinkholeCell(ps[i], y, x);
      assert front[i] == ps[i];
    }
    if Drained(front, y, x) {
      var i :| 0 <= i < |front| && IsSinkholeCell(front[i], y, x);
      assert ps[i] == front[i];
    }
  }

  /** Opening sinkholes only turns wall into background, and only in the drains of the listed slots. */
  lemma {:induction false} SinkholesOnlyDrains(g: Grid, ps: seq<int>)
    requires IsField(g) && IsSlotList(ps)
    ensures var r := SinkholesAt(g, ps);
      && IsField(r)
      && forall y, x | 0 <= y < ROWS && 0 <= x < WIDTH && r[y][x] != g[y][x] ::
           g[y][x] == WALL_COLOR && r[y][x] == 0 && Drained(ps, y, x)
    decreases |ps|
  {
    if ps != [] {
      var front, last := ps[..|ps| - 1], ps[|ps| - 1];
      var h := SinkholesAt(g, front);
      var r := SinkholesAt(g, ps);
      assert r == Sinkhole(h, last);
      SinkholesOnlyDrains(g, front);
      assert IsField(r) by {
        SinkholeKeepsField(h, last);
      }
      SinkholeChangesOnlyDrains(h, last);
      forall y, x | 0 <= y < ROWS && 0 <= x < WIDTH && r[y][x] != g[y][x]
        ensures g[y][x] == WALL_COLOR && r[y][x] == 0 && Drained(ps, y, x)
      {
        DrainedSnoc(ps, y, x);
      }
    }
  }

  /** Stamps digit `ds[p]` into each slot p of `ps`, in order. */
  method StampDigits(field: array2<int>, ps: seq<int>, ds: seq<int>)
    requires field.Length0 == ROWS && field.Length1 == WIDTH && IsSlotList(ps) && IsDisplay(ds)
    modifies field
    ensures Snap(field) == PutDigitsAt(old(Snap(field)), ps, ds)
  {
    ghost var g := Snap(field);
    for k := 0 to |ps|
      invariant Snap(field) == PutDigitsAt(g, ps[..k], ds)
    {
      assert ps[..k + 1][..k] == ps[..k];
      PutDigit(field, ps[k], ds[ps[k]]);
    }
    assert ps[..|ps|] == ps;
  }

  /** The detection loop: a sinkhole in each slot whose digit changed, and the list of those slots. */
  method OpenSinkholes(field: array2<int>, ds: seq<int>, shown: seq<int>) returns (poss: seq<int>)
    requires field.Length0 == ROWS && field.Length1 == WIDTH && IsDisplay(ds) && IsDisplay(shown)
    modifies field
    ensures poss == ChangedSlots(ds, shown) && IsSlotList(poss)
    ensures Snap(field) == SinkholesAt(old(Snap(field)), poss)
  {
    ghost var g := Snap(field);
    poss := [];
    for p := 0 to 4
      invariant poss == ChangedBelow(ds, shown, p)
      invariant IsSlotList(poss)
      invariant Snap(field) == SinkholesAt(g, poss)
    {
      if ds[p] != shown[p] {
        ghost var before := poss;
        PutSinkhole(field, p);
        poss := poss + [p];
        assert poss[..|poss| - 1] == before;
      }
    }
  }

  lemma {:induction false} PutDigitsKeepField(g: Grid, ps: seq<int>, ds: seq<int>)
    requires IsField(g) && IsSlotList(ps) && IsDisplay(ds)
    ensures IsField(PutDigitsAt(g, ps, ds))
    decreases |ps|
  {
    if ps != [] {
      PutDigitsKeepField(g, ps[..|ps| - 1], ds);
      PutDigitKeepsField(PutDigitsAt(g, ps[..|ps| - 1], ds), ps[|ps| - 1], ds[ps[|ps| - 1]]);
    }
  }

  // ---------------------------------------------------------------- the countdown

  /** The countdown after one `field_update`: a change sets it to 30, then a non-negative countdown is decremented. */
  function NextCountdown(c: int, changed: bool): (r: int)
    ensures changed ==> r == SINKHOLE_OPENING_PERIOD - 1
    ensures -1 <= c < SINKHOLE_OPENING_PERIOD ==> -1 <= r < SINKHOLE_OPENING_PERIOD
    ensures !changed && c >= 0 ==> r == c - 1
    ensures !changed && c < 0 ==> r == c
  {
    var c1 := if changed then SINKHOLE_OPENING_PERIOD else c;
    if c1 >= 0 then c1 - 1 else c1
  }

  /** Whether this `field_update` restamps the pending digits: the decrement reached 0. */
  predicate Reseals(c: int, changed: bool) {
    var c1 := if changed then SINKHOLE_OPENING_PERIOD else c;
    c1 >= 0 && c1 - 1 == 0
  }

  /** The countdown after n calls during which the digits do not change. */
  function QuietCountdown(c: int, n: nat): int
    decreases n
  {
    if n == 0 then c else QuietCountdown(NextCountdown(c, false), n - 1)
  }

  lemma {:induction false} QuietCountdownIs(c: int, n: nat)
    requires c >= -1
    ensures QuietCountdown(c, n) == if c - n >= -1 then c - n else -1
    decreases n
  {
    if n > 0 {
      QuietCountdownIs(NextCountdown(c, false), n - 1);
    }
  }

  /**
   * With the time held after a change, the digits are restamped on exactly
   * the 30th `field_update`, counting the call that saw the change; after the
   * k-th call the countdown is 30 - k, and from the 31st call on it is -1.
   */
  lemma ResealSchedule(c0: int, k: nat)
    requires k >= 1
    ensures k == 1 ==> !Reseals(c0, true)
    ensures k >= 2 ==> (Reseals(QuietCountdown(NextCountdown(c0, true), k - 2), false) <==> k == SINKHOLE_OPENING_PERIOD)
    ensures QuietCountdown(NextCountdown(c0, true), k - 1) ==
      if k <= SINKHOLE_OPENING_PERIOD + 1 then SINKHOLE_OPENING_PERIOD - k else -1
  {
    var c1 := NextCountdown(c0, true);
    if k >= 2 {
      QuietCountdownIs(c1, k - 2);
    }
    QuietCountdownIs(c1, k - 1);
  }

  /** The digit part of `field_update`: detection, sinkholes and, when the countdown ends, the restamp. */
  function DigitStage(g: Grid, shown: seq<int>, ds: seq<int>, countdown: int, poss: seq<int>): (r: Grid)
    requires IsShape(g) && IsDisplay(shown) && IsDisplay(ds) && IsSlotList(poss)
    ensures IsShape(r)
  {
    var changed := ds != shown;
    ChangedSlotsExact(ds, shown);
    var pending := if changed then ChangedSlots(ds, shown) else poss;
    var holed := if changed then SinkholesAt(g, pending) else g;
    if Reseals(countdown, changed) then PutDigitsAt(holed, pending, ds) else holed
  }

  lemma DigitStageKeepsField(g: Grid, shown: seq<int>, ds: seq<int>, countdown: int, poss: seq<int>)
    requires IsField(g) && IsDisplay(shown) && IsDisplay(ds) && IsSlotList(poss)
    ensures IsField(DigitStage(g, shown, ds, countdown, poss))
  {
    var changed := ds != shown;
    ChangedSlotsExact(ds, shown);
    var pending := if changed then ChangedSlots(ds, shown) else poss;
    SinkholesOnlyDrains(g, pending);
    var holed := if changed then SinkholesAt(g, pending) else g;
    PutDigitsKeepField(holed, pending, ds);
  }

  /**
   * The statements of the digit part of `field_update`, on the field and on
   * the shown digits, countdown and pending list passed in.
   */
  method DigitPhase(field: array2<int>, shown: seq<int>, ds: seq<int>, countdown: int, poss: seq<int>)
    returns (countdown': int, poss': seq<int>)
    requires field.Length0 == ROWS && field.Length1 == WIDTH
    requires IsDisplay(shown) && IsDisplay(ds) && IsSlotList(poss)
    modifies field
    ensures countdown' == NextCountdown(countdown, ds != shown)
    ensures poss' == (if ds != shown then ChangedSlots(ds, shown) else poss) && IsSlotList(poss')
    ensures Snap(field) == DigitStage(old(Snap(field)), shown, ds, countdown, poss)
  {
    ChangedSlotsExact(ds, shown);
    countdown', poss' := countdown, poss;
    if ds != shown {
      countdown' := SINKHOLE_OPENING_PERIOD;
      poss' := OpenSinkholes(field, ds, shown);
    }
    if countdown' >= 0 {
      countdown' := countdown' - 1;
      if countdown' == 0 {
        StampDigits(field, poss', ds);
      }
    }
  }

  // ---------------------------------------------------------------- pick queues

  /** Each index 0..n-1 exactly five times, in any order. */
  ghost predicate IsFullCycle(q: seq<int>, n: int) {
    forall v :: multiset(q)[v] == if 0 <= v < n then 5 else 0
  }

  /** Builds the pick list: each index from 0 to n-1, five times in a row, in ascending order. */
  method FreshPicks(n: nat) returns (picks: seq<int>)
    ensures IsFullCycle(picks, n) && |picks| == 5 * n
  {
    picks := [];
    for i := 0 to n
      invariant |picks| == 5 * i
      invariant forall v :: multiset(picks)[v] == if 0 <= v < i then 5 else 0
    {
      for j := 0 to 5
        invariant |picks| == 5 * i + j
        invariant forall v :: multiset(picks)[v] == (if 0 <= v < i then 5 else 0) + (if v == i then j else 0)
      {
        picks := picks + [i];
      }
    }
  }

  /** Two full cycles are rearrangements of each other. */
  lemma FullCyclesAgree(p: seq<int>, q: seq<int>, n: int)
    requires IsFullCycle(p, n) && IsFullCycle(q, n)
    ensures multiset(p) == multiset(q)
  {
    forall v
      ensures multiset(p)[v] == multiset(q)[v]
    {
    }
  }

  /** A queue part of a cycle whose other part has been popped. */
  ghost predicate QueueOk(q: seq<int>, popped: seq<int>, n: int) {
    (q == [] && popped == []) || IsFullCycle(q + popped, n)
  }

  /** Every pick of a cycle is an index below n. */
  lemma CycleMember(q: seq<int>, n: int, i: int)
    requires IsFullCycle(q, n) && 0 <= i < |q|
    ensures 0 <= q[i] < n
  {
    assert q[i] in multiset(q);
  }

  /**
   * Popping the last pick moves it from the queue to the popped part of the
   * cycle; once the queue is empty the popped part holds each index five times.
   */
  lemma {:induction false} PopKeepsCycle(q: seq<int>, popped: seq<int>, n: int)
    requires IsFullCycle(q + popped, n) && q != []
    ensures 0 <= q[|q| - 1] < n
    ensures IsFullCycle(q[..|q| - 1] + (popped + [q[|q| - 1]]), n)
  {
    var k := |q| - 1;
    CycleMember(q + popped, n, k);
    assert q == q[..k] + [q[k]];
    assert multiset(q[..k] + (popped + [q[k]])) == multiset(q + popped) by {
      calc {
        multiset(q[..k] + (popped + [q[k]]));
        multiset(q[..k]) + multiset(popped) + multiset([q[k]]);
        multiset(q[..k] + [q[k]]) + multiset(popped);
        multiset(q + popped);
      }
    }
  }

  /** The queue as `field_update` finds it: refilled with the shuffled cycle when empty. */
  function Refilled(q: seq<int>, shuffled: seq<int>): seq<int> {
    if q == [] then shuffled else q
  }

  /** The pick popped from the end of the refilled queue, or 0 for an empty one. */
  function NextPick(q: seq<int>, shuffled: seq<int>): int {
    var r := Refilled(q, shuffled);
    if r == [] then 0 else r[|r| - 1]
  }

  /** What the pop leaves in the queue. */
  function RestPicks(q: seq<int>, shuffled: seq<int>): seq<int> {
    var r := Refilled(q, shuffled);
    if r == [] then [] else r[..|r| - 1]
  }

  /**
   * One pick queue of `field_update`: refilled with the shuffled cycle when
   * empty, then its last pick popped. `popped` records the picks popped
   * since the last refill.
   */
  method PopCycle(q: seq<int>, ghost popped: seq<int>, shuffled: seq<int>, n: nat)
    returns (pick: int, q': seq<int>, ghost popped': seq<int>)
    requires n > 0 && QueueOk(q, popped, n)
    requires q == [] ==> IsFullCycle(shuffled, n)
    ensures pick == NextPick(q, shuffled) && 0 <= pick < n
    ensures q' == RestPicks(q, shuffled) && QueueOk(q', popped', n)
    ensures q' == [] ==> IsFullCycle(popped', n)
  {
    q', popped' := q, popped;
    if q' == [] {
      var picks := FreshPicks(n);
      FullCyclesAgree(picks, shuffled, n);
      q', popped' := shuffled, [];
      assert q' + popped' == shuffled;
      assert multiset(shuffled)[0] == 5;
    }
    PopKeepsCycle(q', popped', n);
    pick := q'[|q'| - 1];
    q' := q'[..|q'| - 1];
    popped' := popped' + [pick];
    assert q' == [] ==> q' + popped' == popped';
  }

  // ---------------------------------------------------------------- colour queue and injection

  /** `LIQUID_COLOR_QUEUE` before its import-time shuffle: 150 of colour 8, 850 of 10, one of 11. */
  function ColorPopulation(): seq<int> {
    seq(150, _ => 8) + seq(850, _ => 10) + [11]
  }

  /** The counts of `LIQUID_COLOR_POPULATION`. */
  function PopulationCounts(): multiset<int> {
    multiset{}[8 := 150][10 := 850][11 := 1]
  }

  lemma {:induction false} RunCounts(n: nat, c: int)
    ensures multiset(seq(n, _ => c)) == multiset{}[c := n]
  {
    if n > 0 {
      RunCounts(n - 1, c);
      assert seq(n, _ => c) == seq(n - 1, _ => c) + [c];
    }
  }

  /** The population list holds 1001 colours with exactly the population's counts. */
  lemma PopulationHasCounts()
    ensures |ColorPopulation()| == 1001
    ensures multiset(ColorPopulation()) == PopulationCounts()
  {
    RunCounts(150, 8);
    RunCounts(850, 10);
    var m := multiset(ColorPopulation());
    assert m == multiset(seq(150, _ => 8)) + multiset(seq(850, _ => 10)) + multiset{11};
    forall v
      ensures m[v] == PopulationCounts()[v]
    {
    }
  }

  /** A shuffled colour queue: any rearrangement of the population. */
  predicate IsColorQueue(q: seq<int>) { multiset(q) == PopulationCounts() }

  lemma ColorQueueLiquid(q: seq<int>)
    requires IsColorQueue(q)
    ensures |q| == 1001 && forall i | 0 <= i < |q| :: IsLiquid(q[i])
  {
    PopulationHasCounts();
    assert |multiset(q)| == |q|;
    assert |multiset(ColorPopulation())| == |ColorPopulation()|;
    forall i | 0 <= i < |q|
      ensures IsLiquid(q[i])
    {
      assert q[i] in multiset(q);
    }
  }

  /** Where frame `frame` falls in the injection period with no acceleration, `DropPeriod(0)` = 28 frames. */
  function DropPhase(frame: int): int { frame % 28 }

  /** The period of injection: LIQUID_DROP_SIZE frames on, the rest off. */
  function DropPeriod(dropAccel: int): int { LIQUID_DROP_SIZE * (LIQUID_DROP_INTERVAL - dropAccel) }

  /** On the first frame of a period the column WIDTH-2 minus the drawn offset in [0, 12); otherwise the old column. */
  function NextDropX(t: int, dropX: int, offset: int): (r: int)
    requires 0 <= offset < DIGIT_DISP_ZOOM * 4
    ensures t == 0 ==> WIDTH - 13 <= r <= WIDTH - 2
    ensures t != 0 ==> r == dropX
  {
    if t == 0 then WIDTH - 1 - offset - 1 else dropX
  }

  function NextColorIndex(t: int, index: int, n: nat): (r: int)
    requires n > 0
    ensures t == 0 ==> r == (index + 1) % n
    ensures t != 0 ==> r == index
  {
    if t == 0 then (index + 1) % n else index
  }

  /** On the first LIQUID_DROP_SIZE frames of a period a drop of the given colour appears in row 0. */
  function Inject(g: Grid, t: int, x: int, color: int): (r: Grid)
    requires IsShape(g) && 0 <= x < WIDTH
    ensures IsShape(r)
    ensures t < LIQUID_DROP_SIZE ==> r[0][x] == color
    ensures forall i, j | 0 <= i < ROWS && 0 <= j < WIDTH && (t >= LIQUID_DROP_SIZE || i != 0 || j != x) :: r[i][j] == g[i][j]
  {
    if t < LIQUID_DROP_SIZE then SetCell(g, 0, x, color) else g
  }

  /** A drop is injected on 2 frames of every 28. */
  lemma DropRhythm(frame: nat)
    ensures DropPhase(frame) == frame % DropPeriod(0)
    ensures DropPhase(frame) < LIQUID_DROP_SIZE <==> frame % 28 == 0 || frame % 28 == 1
  {
  }

  // ---------------------------------------------------------------- one frame

  /**
   * The field after one `field_update`: the digit stage, the drainage, the
   * movement scan with draws `d`, and injection at column `x` of colour
   * `color` when `t` is in the first LIQUID_DROP_SIZE frames of a period.
   */
  function FieldStep(g: Grid, shown: seq<int>, ds: seq<int>, countdown: int, poss: seq<int>,
                     d: Draws, t: int, x: int, color: int): (r: Grid)
    requires IsShape(g) && IsDisplay(shown) && IsDisplay(ds) && IsSlotList(poss) && 0 <= x < WIDTH
    ensures IsShape(r)
  {
    Inject(ScanGrid(DrainGrid(DigitStage(g, shown, ds, countdown, poss)), d), t, x, color)
  }

  /** A frame leaves a field a field: every cell is background, wall or one of the liquid colours. */
  lemma FieldStepKeepsField(g: Grid, shown: seq<int>, ds: seq<int>, countdown: int, poss: seq<int>,
                            d: Draws, t: int, x: int, color: int)
    requires IsField(g) && IsDisplay(shown) && IsDisplay(ds) && IsSlotList(poss) && 0 <= x < WIDTH && IsLiquid(color)
    ensures IsField(FieldStep(g, shown, ds, countdown, poss, d, t, x, color))
  {
    var g1 := DigitStage(g, shown, ds, countdown, poss);
    DigitStageKeepsField(g, shown, ds, countdown, poss);
    var g2 := DrainGrid(g1);
    DrainKeepsField(g1);
    ScanConserves(g2, d);
  }

  /** The part of the app's state a frame reads: the field, the digit display, the pick queues, the drop column and colour index. */
  datatype Stage = Stage(grid: Grid, shown: seq<int>, countdown: int, poss: seq<int>,
                         movePicks: seq<int>, sepPicks: seq<int>, dropX: int, colorIndex: int)

  predicate StageOk(st: Stage, colorQueue: seq<int>) {
    && IsShape(st.grid) && IsDisplay(st.shown) && IsSlotList(st.poss)
    && 0 <= st.dropX < WIDTH && 0 <= st.colorIndex < |colorQueue|
  }

  /** The field after `field_update` on frame `frame` at time `now` with the random choices `chance`. */
  function NextField(st: Stage, colorQueue: seq<int>, now: Time, chance: Chance, frame: int): (r: Grid)
    requires StageOk(st, colorQueue) && IsTime(now) && 0 <= chance.dropOffset < DIGIT_DISP_ZOOM * 4
    ensures IsShape(r)
  {
    var t := DropPhase(frame);
    var d := Draws(NextPick(st.movePicks, chance.moveShuffled), NextPick(st.sepPicks, chance.sepShuffled), chance.preferX);
    FieldStep(st.grid, st.shown, DigitsOf(now), st.countdown, st.poss, d, t,
              NextDropX(t, st.dropX, chance.dropOffset), colorQueue[NextColorIndex(t, st.colorIndex, |colorQueue|)])
  }

  /**
   * Everything a frame reads, after one `field_update` on frame `frame`:
   * the new field, the digits of `now`, the countdown and pending slots, the
   * popped queues, the drop column and the colour index. The result is again
   * a well-formed stage.
   */
  function NextStage(st: Stage, colorQueue: seq<int>, now: Time, chance: Chance, frame: int): (r: Stage)
    requires StageOk(st, colorQueue) && IsTime(now) && 0 <= chance.dropOffset < DIGIT_DISP_ZOOM * 4
    ensures StageOk(r, colorQueue)
  {
    var t := DropPhase(frame);
    var ds := DigitsOf(now);
    var changed := ds != st.shown;
    ChangedSlotsExact(ds, st.shown);
    Stage(NextField(st, colorQueue, now, chance, frame), ds,
          NextCountdown(st.countdown, changed),
          if changed then ChangedSlots(ds, st.shown) else st.poss,
          RestPicks(st.movePicks, chance.moveShuffled), RestPicks(st.sepPicks, chance.sepShuffled),
          NextDropX(t, st.dropX, chance.dropOffset), NextColorIndex(t, st.colorIndex, |colorQueue|))
  }

  /**
   * `dropX` starts at 0 and the first `update` counts frame 1, which is inside
   * the first injection window: the first drop lands in column 0, before any
   * period has drawn a column from WIDTH-13 to WIDTH-2.
   */
  lemma FirstDropAtColumnZero(st: Stage, colorQueue: seq<int>, now: Time, chance: Chance)
    requires StageOk(st, colorQueue) && IsTime(now) && 0 <= chance.dropOffset < DIGIT_DISP_ZOOM * 4 && st.dropX == 0
    ensures NextField(st, colorQueue, now, chance, 1)[0][0] == colorQueue[st.colorIndex]
  {
    assert DropPhase(1) == 1;
    assert NextDropX(1, st.dropX, chance.dropOffset) == 0;
    assert NextColorIndex(1, st.colorIndex, |colorQueue|) == st.colorIndex;
    var d := Draws(NextPick(st.movePicks, chance.moveShuffled), NextPick(st.sepPicks, chance.sepShuffled), chance.preferX);
    var g := ScanGrid(DrainGrid(DigitStage(st.grid, st.shown, DigitsOf(now), st.countdown, st.poss)), d);
    assert NextField(st, colorQueue, now, chance, 1) == Inject(g, 1, 0, colorQueue[st.colorIndex]);
  }

  /**
   * A drop written on the first frame of a period, or on the second with the
   * column the first frame drew, lands in a column from WIDTH-13 to WIDTH-2.
   */
  lemma DropInWindow(st: Stage, colorQueue: seq<int>, now: Time, chance: Chance, frame: int)
    requires StageOk(st, colorQueue) && IsTime(now) && 0 <= chance.dropOffset < DIGIT_DISP_ZOOM * 4
    requires DropPhase(frame) < LIQUID_DROP_SIZE
    requires DropPhase(frame) == 0 || WIDTH - 13 <= st.dropX <= WIDTH - 2
    ensures var t := DropPhase(frame);
      var x := NextDropX(t, st.dropX, chance.dropOffset);
      && WIDTH - 13 <= x <= WIDTH - 2
      && NextField(st, colorQueue, now, chance, frame)[0][x] == colorQueue[NextColorIndex(t, st.colorIndex, |colorQueue|)]
  {
  }

  /**
   * From frame 28 on the drop column stays in [WIDTH-13, WIDTH-2]: frame 28
   * is the first frame of a period, and every other frame keeps the column.
   * So from frame 28 on `DropInWindow` applies to every frame that writes a
   * drop.
   */
  lemma DropColumnSettles(frame: int, dropX: int, offset: int)
    requires 0 <= offset < DIGIT_DISP_ZOOM * 4
    requires frame - 1 >= DropPeriod(0) ==> WIDTH - 13 <= dropX <= WIDTH - 2
    ensures frame >= DropPeriod(0) ==> DropPhase(frame) == 0 || WIDTH - 13 <= dropX <= WIDTH - 2
    ensures frame >= DropPeriod(0) ==> WIDTH - 13 <= NextDropX(DropPhase(frame), dropX, offset) <= WIDTH - 2
  {
    assert DropPhase(28) == 0;
  }

  // ---------------------------------------------------------------- the app

  /** The field `BaseApp.__init__` builds: the initial layout with the four digits stamped in. */
  method InitialField(ds: seq<int>) returns (f: array2<int>)
    requires IsDisplay(ds)
    ensures fresh(f) && f.Length0 == ROWS && f.Length1 == WIDTH
    ensures Snap(f) == PutDigitsAt(InitialGrid(), [0, 1, 2, 3], ds) && IsField(Snap(f))
  {
    f := CreateField();
    StampDigits(f, [0, 1, 2, 3], ds);
    PutDigitsKeepField(InitialGrid(), [0, 1, 2, 3], ds);
  }

  /** The prev_fields list after appending a copy and trimming it to its last two. */
  function Trimmed(fs: seq<Grid>): (r: seq<Grid>)
    ensures |r| == if |fs| > 2 then |fs| - 1 else |fs|
    ensures r == fs[|fs| - |r|..]
    ensures |fs| <= 3 ==> |r| <= 2
  {
    if |fs| > 2 then fs[1..] else fs
  }

  class BaseApp {
    const field: array2<int>
    var prevFields: seq<Grid>
    var dispDigits: seq<int>
    var dispDigitsUpdateCountdown: int
    var dispDigitsUpdatePoss: seq<int>
    const dropAccel: int
    var dropX: int
    var dropMovePicks: seq<int>
    var dropSepPicks: seq<int>
    /** The picks popped since each queue's last refill. */
    ghost var movePopped: seq<int>
    ghost var sepPopped: seq<int>
    var liquidColorIndex: int
    var frameCount: int
    /** `LIQUID_COLOR_QUEUE` as the import-time shuffle left it. */
    const colorQueue: seq<int>

    ghost predicate Valid()
      reads this, field
    {
      && field.Length0 == ROWS && field.Length1 == WIDTH
      && IsField(Snap(field))
      && |prevFields| <= 2
      && IsDisplay(dispDigits)
      && -1 <= dispDigitsUpdateCountdown < SINKHOLE_OPENING_PERIOD
      && IsSlotList(dispDigitsUpdatePoss)
      && dropAccel == 0
      && (dropX == 0 || WIDTH - 13 <= dropX <= WIDTH - 2)
      && QueueOk(dropMovePicks, movePopped, LIQUID_MOVE_INTERVAL)
      && QueueOk(dropSepPicks, sepPopped, LIQUID_SEP_INTERVAL)
      && IsColorQueue(colorQueue) && 0 <= liquidColorIndex < |colorQueue|
      && frameCount >= 0
    }

    /**
     * From frame 28 on the drop column is one the first frame of a period
     * drew. It holds between calls of `update`, not halfway through one.
     */
    ghost predicate Settled()
      reads this`frameCount, this`dropX
    {
      frameCount >= DropPeriod(0) ==> WIDTH - 13 <= dropX <= WIDTH - 2
    }

    /** `Settled()` as it reads once `update` has counted the frame and before `field_update` runs. */
    ghost predicate ColumnReady()
      reads this`frameCount, this`dropX
    {
      frameCount - 1 >= DropPeriod(0) ==> WIDTH - 13 <= dropX <= WIDTH - 2
    }

    /** `BaseApp.__init__` at time `now`. */
    constructor (now: Time, queue: seq<int>)
      requires IsTime(now) && IsColorQueue(queue)
      ensures Valid() && fresh(field)
      ensures Snap(field) == PutDigitsAt(InitialGrid(), [0, 1, 2, 3], DigitsOf(now))
      ensures dispDigits == DigitsOf(now) && dispDigitsUpdateCountdown == -1 && dispDigitsUpdatePoss == []
      ensures prevFields == [] && dropX == 0 && dropMovePicks == [] && dropSepPicks == []
      ensures liquidColorIndex == 0 && frameCount == 0 && colorQueue == queue
      ensures Settled()
    {
      var ds := DigitsOf(now);
      var f := InitialField(ds);
      ColorQueueLiquid(queue);
      field := f;
      prevFields := [];
      dispDigits := ds;
      dispDigitsUpdateCountdown := -1;
      dispDigitsUpdatePoss := [];
      dropAccel := 0;
      dropX := 0;
      dropMovePicks := [];
      dropSepPicks := [];
      movePopped := [];
      sepPopped := [];
      liquidColorIndex := 0;
      frameCount := 0;
      colorQueue := queue;
    }

    /** `update_colon(now)` */
    method UpdateColon(now: Time)
      requires Valid()
      modifies field
      ensures Valid()
      ensures Snap(field) == ColonGrid(old(Snap(field)), now.second)
      ensures unchanged(this)
    {
      ColonKeepsField(Snap(field), now.second);
      SetColon(field, now.second);
    }

    /** The digit part of `field_update`. */
    method UpdateDigits(ds: seq<int>)
      requires Valid() && IsDisplay(ds)
      modifies this, field
      ensures Valid()
      ensures var changed := ds != old(dispDigits);
        && dispDigits == ds
        && dispDigitsUpdatePoss == (if changed then ChangedSlots(ds, old(dispDigits)) else old(dispDigitsUpdatePoss))
        && dispDigitsUpdateCountdown == NextCountdown(old(dispDigitsUpdateCountdown), changed)
      ensures Snap(field) == DigitStage(old(Snap(field)), old(dispDigits), ds, old(dispDigitsUpdateCountdown), old(dispDigitsUpdatePoss))
      ensures prevFields == old(prevFields) && dropX == old(dropX) && frameCount == old(frameCount)
      ensures dropMovePicks == old(dropMovePicks) && dropSepPicks == old(dropSepPicks)
      ensures movePopped == old(movePopped) && sepPopped == old(sepPopped)
      ensures liquidColorIndex == old(liquidColorIndex)
    {
      var countdown, poss := StageDigits(ds);
      dispDigitsUpdateCountdown, dispDigitsUpdatePoss, dispDigits := countdown, poss, ds;
    }

    /** The field part of the digit update: the digit stage on the field, returning the new countdown and slots. */
    method StageDigits(ds: seq<int>) returns (countdown: int, poss: seq<int>)
      requires Valid() && IsDisplay(ds)
      modifies field
      ensures Valid() && unchanged(this)
      ensures var changed := ds != dispDigits;
        && poss == (if changed then ChangedSlots(ds, dispDigits) else dispDigitsUpdatePoss) && IsSlotList(poss)
        && countdown == NextCountdown(dispDigitsUpdateCountdown, changed)
        && -1 <= countdown < SINKHOLE_OPENING_PERIOD
      ensures Snap(field) == DigitStage(old(Snap(field)), dispDigits, ds, dispDigitsUpdateCountdown, dispDigitsUpdatePoss)
    {
      assert IsField(DigitStage(Snap(field), dispDigits, ds, dispDigitsUpdateCountdown, dispDigitsUpdatePoss)) by {
        DigitStageKeepsField(Snap(field), dispDigits, ds, dispDigitsUpdateCountdown, dispDigitsUpdatePoss);
      }
      countdown, poss := DigitPhase(field, dispDigits, ds, dispDigitsUpdateCountdown, dispDigitsUpdatePoss);
    }

    /** The pick queues of `field_update`: refill an empty queue with a shuffled cycle, then pop both. */
    method PopPicks(moveShuffled: seq<int>, sepShuffled: seq<int>) returns (dpMove: int, dsPick: int)
      requires Valid()
      requires dropMovePicks == [] ==> IsFullCycle(moveShuffled, LIQUID_MOVE_INTERVAL)
      requires dropSepPicks == [] ==> IsFullCycle(sepShuffled, LIQUID_SEP_INTERVAL)
      modifies this
      ensures Valid()
      ensures dpMove == NextPick(old(dropMovePicks), moveShuffled) && 0 <= dpMove < LIQUID_MOVE_INTERVAL
      ensures dsPick == NextPick(old(dropSepPicks), sepShuffled) && 0 <= dsPick < LIQUID_SEP_INTERVAL
      ensures dropMovePicks == RestPicks(old(dropMovePicks), moveShuffled)
      ensures dropSepPicks == RestPicks(old(dropSepPicks), sepShuffled)
      ensures dropMovePicks == [] ==> IsFullCycle(movePopped, LIQUID_MOVE_INTERVAL)
      ensures dropSepPicks == [] ==> IsFullCycle(sepPopped, LIQUID_SEP_INTERVAL)
      ensures prevFields == old(prevFields) && dispDigits == old(dispDigits)
      ensures dispDigitsUpdateCountdown == old(dispDigitsUpdateCountdown) && dispDigitsUpdatePoss == old(dispDigitsUpdatePoss)
      ensures dropX == old(dropX) && liquidColorIndex == old(liquidColorIndex) && frameCount == old(frameCount)
    {
      dpMove, dropMovePicks, movePopped := PopCycle(dropMovePicks, movePopped, moveShuffled, LIQUID_MOVE_INTERVAL);
      dsPick, dropSepPicks, sepPopped := PopCycle(dropSepPicks, sepPopped, sepShuffled, LIQUID_SEP_INTERVAL);
    }

    /** What `field_update` reads of the app. */
    ghost function Current(): Stage
      reads field, this`dispDigits, this`dispDigitsUpdateCountdown, this`dispDigitsUpdatePoss
      reads this`dropMovePicks, this`dropSepPicks, this`dropX, this`liquidColorIndex
    {
      Stage(Snap(field), dispDigits, dispDigitsUpdateCountdown, dispDigitsUpdatePoss,
            dropMovePicks, dropSepPicks, dropX, liquidColorIndex)
    }

    /** Drop injection at the end of `field_update`. */
    method InjectDrop(offset: int)
      requires Valid() && 0 <= offset < DIGIT_DISP_ZOOM * 4
      modifies this, field
      ensures Valid()
      ensures var t := DropPhase(frameCount);
        && dropX == NextDropX(t, old(dropX), offset)
        && liquidColorIndex == NextColorIndex(t, old(liquidColorIndex), |colorQueue|)
        && Snap(field) == Inject(old(Snap(field)), t, dropX, colorQueue[liquidColorIndex])
      ensures prevFields == old(prevFields) && dispDigits == old(dispDigits) && frameCount == old(frameCount)
      ensures dispDigitsUpdateCountdown == old(dispDigitsUpdateCountdown) && dispDigitsUpdatePoss == old(dispDigitsUpdatePoss)
      ensures dropMovePicks == old(dropMovePicks) && dropSepPicks == old(dropSepPicks)
      ensures movePopped == old(movePopped) && sepPopped == old(sepPopped)
      ensures old(ColumnReady()) ==> Settled()
    {
      if ColumnReady() {
        DropColumnSettles(frameCount, dropX, offset);
      }
      ColorQueueLiquid(colorQueue);
      var t := frameCount % (LIQUID_DROP_SIZE * (LIQUID_DROP_INTERVAL - dropAccel));
      if t < LIQUID_DROP_SIZE {
        if t == 0 {
          dropX := WIDTH - 1 - offset - 1;
          liquidColorIndex := (liquidColorIndex + 1) % |colorQueue|;
        }
        PlaceDrop(colorQueue[liquidColorIndex]);
      }
    }

    /** Writes the colour to row 0 at the drop column. */
    method PlaceDrop(color: int)
      requires Valid() && IsLiquid(color)
      modifies field
      ensures Valid() && unchanged(this)
      ensures Snap(field) == SetCell(old(Snap(field)), 0, dropX, color)
    {
      Store(field, 0, dropX, color);
    }

    /** `field_update(now)` with the random choices of `chance`. */
    method FieldUpdate(now: Time, chance: Chance)
      requires Valid() && IsTime(now) && 0 <= chance.dropOffset < DIGIT_DISP_ZOOM * 4
      requires dropMovePicks == [] ==> IsFullCycle(chance.moveShuffled, LIQUID_MOVE_INTERVAL)
      requires dropSepPicks == [] ==> IsFullCycle(chance.sepShuffled, LIQUID_SEP_INTERVAL)
      modifies this, field
      ensures Valid()
      ensures Current() == NextStage(old(Current()), colorQueue, now, chance, old(frameCount))
      ensures prevFields == old(prevFields) && frameCount == old(frameCount)
      ensures old(ColumnReady()) ==> Settled()
    {
      ghost var st := Current();
      ghost var ready := ColumnReady();
      UpdateDigits(DigitsOf(now));
      assert ready == ColumnReady();
      ghost var staged := Snap(field);
      assert staged == DigitStage(st.grid, st.shown, DigitsOf(now), st.countdown, st.poss);
      LiquidUpdate(chance);
      assert Snap(field) == NextField(st, colorQueue, now, chance, frameCount);
    }

    /** The drainage step of `field_update`. */
    method DrainField()
      requires Valid()
      modifies field
      ensures Valid() && unchanged(this)
      ensures Snap(field) == DrainGrid(old(Snap(field)))
    {
      DrainKeepsField(Snap(field));
      Drain(field);
    }

    /** The movement scan of `field_update` with the draws `d`. */
    method MoveField(d: Draws)
      requires Valid()
      modifies field
      ensures Valid() && unchanged(this)
      ensures Snap(field) == ScanGrid(old(Snap(field)), d)
    {
      ScanConserves(Snap(field), d);
      MoveLiquids(field, d);
    }

    /** The part of `field_update` after the digits: drainage, the pick queues, movement and injection. */
    method LiquidUpdate(chance: Chance)
      requires Valid() && 0 <= chance.dropOffset < DIGIT_DISP_ZOOM * 4
      requires dropMovePicks == [] ==> IsFullCycle(chance.moveShuffled, LIQUID_MOVE_INTERVAL)
      requires dropSepPicks == [] ==> IsFullCycle(chance.sepShuffled, LIQUID_SEP_INTERVAL)
      modifies this, field
      ensures Valid()
      ensures var t := DropPhase(frameCount);
        && Snap(field) == Inject(ScanGrid(DrainGrid(old(Snap(field))),
                                          Draws(NextPick(old(dropMovePicks), chance.moveShuffled),
                                                NextPick(old(dropSepPicks), chance.sepShuffled), chance.preferX)),
                                 t, dropX, colorQueue[liquidColorIndex])
        && dropX == NextDropX(t, old(dropX), chance.dropOffset)
        && liquidColorIndex == NextColorIndex(t, old(liquidColorIndex), |colorQueue|)
      ensures dropMovePicks == RestPicks(old(dropMovePicks), chance.moveShuffled)
      ensures dropSepPicks == RestPicks(old(dropSepPicks), chance.sepShuffled)
      ensures dropMovePicks == [] ==> IsFullCycle(movePopped, LIQUID_MOVE_INTERVAL)
      ensures dropSepPicks == [] ==> IsFullCycle(sepPopped, LIQUID_SEP_INTERVAL)
      ensures prevFields == old(prevFields) && frameCount == old(frameCount) && dispDigits == old(dispDigits)
      ensures dispDigitsUpdateCountdown == old(dispDigitsUpdateCountdown) && dispDigitsUpdatePoss == old(dispDigitsUpdatePoss)
      ensures old(ColumnReady()) ==> Settled()
    {
      ScanUpdate(chance);
      InjectDrop(chance.dropOffset);
    }

    /** Drainage, the pick queues and the movement scan with the popped picks. */
    method ScanUpdate(chance: Chance)
      requires Valid()
      requires dropMovePicks == [] ==> IsFullCycle(chance.moveShuffled, LIQUID_MOVE_INTERVAL)
      requires dropSepPicks == [] ==> IsFullCycle(chance.sepShuffled, LIQUID_SEP_INTERVAL)
      modifies this, field
      ensures Valid()
      ensures Snap(field) == ScanGrid(DrainGrid(old(Snap(field))),
                                      Draws(NextPick(old(dropMovePicks), chance.moveShuffled),
                                            NextPick(old(dropSepPicks), chance.sepShuffled), chance.preferX))
      ensures dropMovePicks == RestPicks(old(dropMovePicks), chance.moveShuffled)
      ensures dropSepPicks == RestPicks(old(dropSepPicks), chance.sepShuffled)
      ensures dropMovePicks == [] ==> IsFullCycle(movePopped, LIQUID_MOVE_INTERVAL)
      ensures dropSepPicks == [] ==> IsFullCycle(sepPopped, LIQUID_SEP_INTERVAL)
      ensures prevFields == old(prevFields) && frameCount == old(frameCount) && dispDigits == old(dispDigits)
      ensures dispDigitsUpdateCountdown == old(dispDigitsUpdateCountdown) && dispDigitsUpdatePoss == old(dispDigitsUpdatePoss)
      ensures dropX == old(dropX) && liquidColorIndex == old(liquidColorIndex)
    {
      DrainField();
      var dpMove, dsPick := PopPicks(chance.moveShuffled, chance.sepShuffled);
      MoveField(Draws(dpMove, dsPick, chance.preferX));
    }

    /** The bookkeeping at the head of `update`: remember the field in `prev_fields`, keeping the last two, and count the frame. */
    method Tick()
      requires Valid()
      modifies this
      ensures Valid()
      ensures prevFields == Trimmed(old(prevFields + [Snap(field)])) && frameCount == old(frameCount) + 1
      ensures dispDigits == old(dispDigits) && dispDigitsUpdateCountdown == old(dispDigitsUpdateCountdown)
      ensures dispDigitsUpdatePoss == old(dispDigitsUpdatePoss) && dropX == old(dropX) && liquidColorIndex == old(liquidColorIndex)
      ensures dropMovePicks == old(dropMovePicks) && dropSepPicks == old(dropSepPicks)
      ensures movePopped == old(movePopped) && sepPopped == old(sepPopped)
      ensures Current() == old(Current())
      ensures old(Settled()) ==> ColumnReady()
    {
      prevFields := Trimmed(prevFields + [Snap(field)]);
      frameCount := frameCount + 1;
    }

    /** The part of `update(now)` after the bookkeeping: `field_update`, then the colon. */
    method FieldAndColon(now: Time, chance: Chance)
      requires Valid() && IsTime(now) && 0 <= chance.dropOffset < DIGIT_DISP_ZOOM * 4
      requires dropMovePicks == [] ==> IsFullCycle(chance.moveShuffled, LIQUID_MOVE_INTERVAL)
      requires dropSepPicks == [] ==> IsFullCycle(chance.sepShuffled, LIQUID_SEP_INTERVAL)
      modifies this, field
      ensures Valid()
      ensures prevFields == old(prevFields) && frameCount == old(frameCount)
      ensures var next := NextStage(old(Current()), colorQueue, now, chance, old(frameCount));
        Current() == next.(grid := ColonGrid(next.grid, now.second))
      ensures old(ColumnReady()) ==> Settled()
    {
      FieldUpdate(now, chance);
      ghost var settled := Settled();
      UpdateColon(now);
      assert settled == Settled();
    }

    /** `update(now)`: keep a copy of the field in `prev_fields` (at most two), count the frame, then run a frame. */
    method Update(now: Time, chance: Chance)
      requires Valid() && IsTime(now) && 0 <= chance.dropOffset < DIGIT_DISP_ZOOM * 4
      requires dropMovePicks == [] ==> IsFullCycle(chance.moveShuffled, LIQUID_MOVE_INTERVAL)
      requires dropSepPicks == [] ==> IsFullCycle(chance.sepShuffled, LIQUID_SEP_INTERVAL)
      modifies this, field
      ensures Valid()
      ensures prevFields == Trimmed(old(prevFields + [Snap(field)]))
      ensures frameCount == old(frameCount) + 1
      ensures var next := NextStage(old(Current()), colorQueue, now, chance, old(frameCount) + 1);
        Current() == next.(grid := ColonGrid(next.grid, now.second))
      ensures old(Settled()) ==> Settled()
    {
      Tick();
      FieldAndColon(now, chance);
    }
  }
}
