# Water clock — a verified model of its cellular-automaton core

The water clock shows the time as four hollow digits cut into a wall. Liquid
drops fall into the field from the top, collect in the glyphs and drain away.
When the time shown changes, drains ("sinkholes") open in the floor of each
changed slot. The liquid runs out through them, and after a fixed countdown
the new digit is stamped into the wall.

The field is a grid of small integers:
- `0` is background;
- `WALL_COLOR` is wall;
- a member of `LIQUID_COLORS` is a drop of liquid.

The grid has one row below the visible ones. There are two snapshots:
- the newer pygame/curses version, `src/waterclock/waterclock.py`;
- the older pyxel version, `waterclock.py`.

Both are modelled here as imperative Dafny. The field is an `array2<int>`.
Every in-place operation is a `method` whose contract ties the new field
(`Snap(field)`, the array's value as rows) to a pure function of the old one.
Lemmas about those functions state what the program promises, and the class
methods keep an invariant `Valid()`:
- every cell is background, wall or liquid;
- the displayed digits are digits;
- the countdown, the pick queues and the colour index stay in range.

Modules:

| file | module | models |
|---|---|---|
| grid.dfy | `Grid` | grids, cell stores and swaps, the census (multiset of all cells), rectangle fills |
| glyphs.dfy | `Glyphs` | `DIGIT_PATTERN_STRS`, shared by both snapshots |
| display.dfy | `Display` | the time, the four displayed digits, the list of changed slots |
| clock_field.dfy | `ClockField` | newer: constants, `create_field`, `put_sinkhole`, `put_digit`, `update_colon` |
| clock_liquid.dfy | `ClockLiquid` | newer: drainage, `liquid_separate`, the movement scan of `field_update` |
| clock_app.dfy | `ClockApp` | newer: `BaseApp` with its countdown, pick queues, colour queue, injection, `field_update` and `update` |
| pyxel_field.dfy | `PyxelField` | older: constants, the initial field, `remove_bottom_digit`, `put_digit` |
| pyxel_liquid.dfy | `PyxelLiquid` | older: edge step, bottom step, the fall and migration scan |
| pyxel_app.dfy | `PyxelApp` | older: `App` with its countdown, colour key, injection, `update` and `field_update` |

Inputs that come from outside the program are parameters:
- The wall clock (`datetime.now()`) is a `Time` value.
- Randomness is a parameter:
  - each `random.shuffle` is the shuffled list the caller passes in;
  - the caller's list must be a rearrangement of the list the code builds;
  - `random.randint` and `random.randrange` are bounded integers;
  - the older split's shuffle is a choice per scan cell, `Draws.flip`.
- The import-time shuffle of `LIQUID_COLOR_QUEUE` is a constructor argument. It must be a rearrangement of the population: 150 of colour 8, 850 of colour 10 and one of colour 11.
- The older file's `pyxel.frame_count` and `pyxel.btnp(KEY_C)` are parameters.

## Model

| member | source | states |
|---|---|---|
| Glyphs.EightHasTwoHoles | src/waterclock/waterclock.py:45-56 | the glyph of 8 is open everywhere except its two loop holes |
| Glyphs.GlyphLayout | src/waterclock/waterclock.py:45-56 | every one of the ten glyphs is 20 characters, five rows of three pixels with a newline at exactly the positions 3, 7, 11, 15 and 19, so row dy starts at character 4·dy; every pixel is '0' or '1' |
| Display.DigitsOf | src/waterclock/waterclock.py:180-182 | the displayed digits are four digits and read back as the hour and minute (`ds[0]*10+ds[1] == hour`) |
| Display.ChangedSlotsExact | src/waterclock/waterclock.py:185-189 | the pending list holds exactly the slots whose digit differs, in strictly ascending order, and is empty only when nothing differs |
| ClockField.InitialLayout | src/waterclock/waterclock.py:64-78 | the initial field: rows 0-2 and the hidden row HEIGHT are background, rows 3 to HEIGHT-1 are wall except the two colon cells |
| ClockField.CreateField | src/waterclock/waterclock.py:64-78 | builds a fresh 22×51 array whose value is the initial field |
| ClockField.PutSinkhole | src/waterclock/waterclock.py:81-87 | the loops leave exactly `Sinkhole(old field, pos)` |
| ClockField.SinkholeChangesOnlyDrains | src/waterclock/waterclock.py:81-87 | a cell changes only if it is in one of the slot's two drain columns in rows 18-20, and only from wall to background |
| ClockField.SinkholeKeepsField | src/waterclock/waterclock.py:81-87 | a field stays a field |
| ClockField.PutDigit | src/waterclock/waterclock.py:90-107 | the three phases of loops leave exactly `PutDigitGrid(old field, pos, digit)` |
| ClockField.PutDigitShape | src/waterclock/waterclock.py:90-107 | rows 18-20 of the slot are wall; each `'0'` block is wall; other slot cells above the floor go from wall to background or keep their value; cells outside the slot and the hidden row are unchanged |
| ClockField.PutDigitIdempotent | src/waterclock/waterclock.py:90-107 | stamping a digit twice equals stamping it once |
| ClockField.PutDigitKeepsField | src/waterclock/waterclock.py:90-107 | a field stays a field |
| ClockField.ColonShape | src/waterclock/waterclock.py:164-175 | only the two colon cells change; when `second % 6 < 3` both are wall, otherwise a wall colon cell opens and any other value stays |
| ClockField.ColonIdempotent | src/waterclock/waterclock.py:164-175 | at a fixed second, updating the colon twice equals once |
| ClockField.SetColon | src/waterclock/waterclock.py:168-175 | the loop over the two colon rows leaves exactly `ColonGrid(old field, second)` |
| ClockLiquid.DrainGrid | src/waterclock/waterclock.py:197-204 | after drainage the side columns of the visible rows hold no liquid; row HEIGHT-1 holds no liquid above a background cell of row HEIGHT; every cell is unchanged or liquid turned to background |
| ClockLiquid.DrainKeepsField | src/waterclock/waterclock.py:197-204 | drainage keeps a field a field and changes no wall |
| ClockLiquid.Drain | src/waterclock/waterclock.py:197-204 | the two drainage loops leave exactly `DrainGrid(old field)` |
| ClockLiquid.Clamp | src/waterclock/waterclock.py:130-131 | `max(-1, min(1, v))` lies in [-1, 1] and has the sign of `v` |
| ClockLiquid.TargetInRange | src/waterclock/waterclock.py:116-131 | the neighbour the clamped weights point to is always on the field, because only in-range cells contribute |
| ClockLiquid.SeparationPull | src/waterclock/waterclock.py:114-129 | the nested loops with their bounds checks compute exactly the weights `PullOf(field, y, x, 5)` and change nothing |
| ClockLiquid.RowWeights | src/waterclock/waterclock.py:117-129 | the inner loop over one row, with its bounds and distance checks, returns exactly that row's weights `RowPull(field, y, x, dy, 5)` and changes nothing |
| ClockLiquid.SeparateSwapsNeighbours | src/waterclock/waterclock.py:110-141 | a no-op on a non-liquid cell; otherwise nothing changes or the cell swaps with one orthogonal liquid neighbour; walls and the census are kept |
| ClockLiquid.LiquidSeparate | src/waterclock/waterclock.py:110-141 | the method leaves exactly `SeparateGrid(old field, y, x, preferX)` |
| ClockLiquid.FallAt | src/waterclock/waterclock.py:226-238 | gravity at one cell leaves exactly `Fall(old field, y, x, preferX)` |
| ClockLiquid.MigrateAt | src/waterclock/waterclock.py:239-249 | migration or clustering at one cell leaves exactly `Migrate(old field, y, x, d)` |
| ClockLiquid.MoveLiquids | src/waterclock/waterclock.py:224-249 | the bottom-to-top double loop leaves exactly `ScanGrid(old field, d)` |
| ClockLiquid.ScanConserves | src/waterclock/waterclock.py:224-249 | the movement scan keeps a field a field, changes no wall and keeps the multiset of all cell values |
| ClockApp.SinkholesOnlyDrains | src/waterclock/waterclock.py:186-189 | opening the drains of the listed slots only turns wall into background, in a drain cell of a listed slot |
| ClockApp.OpenSinkholes | src/waterclock/waterclock.py:185-189 | the detection loop returns the changed slots and leaves the field with their sinkholes open |
| ClockApp.StampDigits | src/waterclock/waterclock.py:194-195 | restamping the pending slots leaves `PutDigitsAt(old field, ps, ds)` |
| ClockApp.NextCountdown | src/waterclock/waterclock.py:183-192 | a change sets the countdown to 30 before the decrement (29 after the call); without a change a non-negative countdown decreases by one and -1 stays; the range [-1, 30) is kept |
| ClockApp.QuietCountdownIs | src/waterclock/waterclock.py:191-192 | after n calls without a change the countdown is `max(c - n, -1)` |
| ClockApp.ResealSchedule | src/waterclock/waterclock.py:183-195 | with the time held, the restamp happens on exactly the 30th `field_update`, counting the triggering call; the countdown after call k is 30-k, and -1 from call 31 on |
| ClockApp.DigitStageKeepsField | src/waterclock/waterclock.py:182-195 | the digit part of a frame keeps a field a field |
| ClockApp.DigitPhase | src/waterclock/waterclock.py:182-195 | returns the new countdown and pending list and leaves `DigitStage(old field, …)` |
| ClockApp.FreshPicks | src/waterclock/waterclock.py:207-210 | the built list holds each index 0..n-1 exactly five times and has length 5n |
| ClockApp.PopKeepsCycle | src/waterclock/waterclock.py:220-221 | a popped pick is below n; the queue plus the picks popped since the refill stay a full cycle |
| ClockApp.PopCycle | src/waterclock/waterclock.py:206-221 | for one queue: an empty queue is refilled with the shuffled full cycle; the last pick is popped and returned, below n; the queue plus the picks popped since the refill stay a full cycle, which is complete once the queue is empty |
| ClockApp.PopulationHasCounts | src/waterclock/waterclock.py:27-31 | the population list has 1001 entries with counts 150, 850 and 1 |
| ClockApp.ColorQueueLiquid | src/waterclock/waterclock.py:27-32 | any rearrangement of the population has 1001 entries, all liquid colours |
| ClockApp.NextDropX | src/waterclock/waterclock.py:253-254 | on the first frame of a period the drop column is in [WIDTH-13, WIDTH-2]; otherwise it is kept |
| ClockApp.Inject | src/waterclock/waterclock.py:251-256 | on the first two frames of a period, row 0 at the drop column takes the colour; no other cell changes |
| ClockApp.DropRhythm | src/waterclock/waterclock.py:251-252 | the period is 28 frames, and a drop is written exactly when `frame % 28` is 0 or 1 |
| ClockApp.FieldStepKeepsField | src/waterclock/waterclock.py:177-256 | a whole `field_update` keeps a field a field |
| ClockApp.NextStage | src/waterclock/waterclock.py:177-256 | the state after one `field_update` (field, digits, countdown, pending slots, popped queues, drop column, colour index) is again well-formed |
| ClockApp.FirstDropAtColumnZero | src/waterclock/waterclock.py:251-256 | with `dropX` still at its initial 0 (line 158), the frame-1 drop is written to column 0 |
| ClockApp.DropInWindow | src/waterclock/waterclock.py:251-256 | a drop written on the first frame of a period, or on the second with the column the first frame drew, lands in [WIDTH-13, WIDTH-2] with the colour the queue index then selects |
| ClockApp.DropColumnSettles | src/waterclock/waterclock.py:251-256 | from frame 28 on, a frame finds either phase 0 or a column in [WIDTH-13, WIDTH-2], and leaves a column in that window, because frame 28 is the first frame of a period and every other frame keeps the column |
| ClockApp.InitialField | src/waterclock/waterclock.py:147-154 | a fresh 22×51 array holding the initial field with the four digits stamped, which is a field |
| ClockApp.Trimmed | src/waterclock/waterclock.py:259-261 | the result is a suffix of the appended list, so only the oldest entry can go; it goes exactly when the list holds more than two, so a list of at most three entries becomes one of at most two |
| ClockApp.BaseApp.constructor | src/waterclock/waterclock.py:146-162 | the initial field with the four digits of `now` stamped, countdown -1, empty queues, `dropX` 0, frame count 0, and `Valid()` |
| ClockApp.BaseApp.UpdateColon | src/waterclock/waterclock.py:164-175 | the field becomes `ColonGrid(old field, second)`; `Valid()` is kept |
| ClockApp.BaseApp.UpdateDigits | src/waterclock/waterclock.py:182-195 | new digits, pending list, countdown and field as `DigitStage`; every other field unchanged; `Valid()` kept |
| ClockApp.BaseApp.StageDigits | src/waterclock/waterclock.py:183-195 | leaves the field as `DigitStage` and returns the new countdown, in [-1, 30), and the pending slots; no other member changes |
| ClockApp.BaseApp.PopPicks | src/waterclock/waterclock.py:206-221 | an empty queue is refilled with the shuffled full cycle; the last pick is popped and returned; picks are in [0, 4) and [0, 120); once a queue empties, its refill cycle has popped each index exactly five times |
| ClockApp.BaseApp.InjectDrop | src/waterclock/waterclock.py:251-256 | new `dropX`, colour index and field as `Inject`; `Valid()` kept |
| ClockApp.BaseApp.PlaceDrop | src/waterclock/waterclock.py:256 | row 0 at the drop column takes the colour, which keeps a field a field; no other member changes |
| ClockApp.BaseApp.FieldUpdate | src/waterclock/waterclock.py:177-256 | the whole state `field_update` reads and writes becomes `NextStage` of the old one: the field as digits, then drainage, then the scan with the popped picks, then injection; the new digits, countdown, pending slots, queues, drop column and colour index; history and frame count unchanged; `Valid()` kept |
| ClockApp.BaseApp.DrainField | src/waterclock/waterclock.py:196-204 | the field becomes `DrainGrid(old field)`, still a field; no other member changes |
| ClockApp.BaseApp.MoveField | src/waterclock/waterclock.py:223-249 | the field becomes `ScanGrid(old field, d)`, still a field; no other member changes |
| ClockApp.BaseApp.LiquidUpdate | src/waterclock/waterclock.py:196-256 | drainage, the pick queues, the scan with the popped picks and injection, with the new queues, drop column and colour index; the digit state, history and frame count unchanged; a column ready before the frame is settled after it |
| ClockApp.BaseApp.ScanUpdate | src/waterclock/waterclock.py:196-249 | the field becomes the scan of the drained field with the popped picks; the queues are popped; drop column, colour index, digit state, history and frame count unchanged |
| ClockApp.BaseApp.Tick | src/waterclock/waterclock.py:259-262 | the field copy is appended to `prev_fields`, trimmed to two, and the frame count is incremented |
| ClockApp.BaseApp.FieldAndColon | src/waterclock/waterclock.py:263-264 | `field_update` then `update_colon`: the state becomes `NextStage` with the colon drawn over its field |
| ClockApp.BaseApp.Update | src/waterclock/waterclock.py:258-264 | history kept to two, frame count plus one, and the whole state `NextStage` of the next frame with the colon over its field; `Valid()` kept; `Settled()` kept, so from frame 28 on the drop column stays in [WIDTH-13, WIDTH-2] |
| PyxelField.InitialLayout | waterclock.py:68-71 | HEIGHT+1 rows of WIDTH cells; rows 0-5 are background except column WIDTH-1 of rows 3-5, which is wall; rows 6 to HEIGHT-1 are wall; row HEIGHT is background |
| PyxelField.CreateField | waterclock.py:68-71 | builds a fresh 25×51 array whose value is that layout |
| PyxelField.RemoveBottomDigit | waterclock.py:34-39 | the loops leave exactly `BottomRemoved(old field, pos)` |
| PyxelField.BottomRemovedExactly | waterclock.py:34-39 | exactly the cells of rows 21-23 of the slot with `x % 3 == 1` become background, whatever they held; nothing else changes |
| PyxelField.DrainColumns | waterclock.py:37-38 | those columns are the middle column of each of the slot's three pixel columns |
| PyxelField.PutDigit | waterclock.py:42-61 | the loops leave exactly `PutDigitGrid(old field, pos, digit)` |
| PyxelField.PutDigitShape | waterclock.py:42-61 | rows 21-23 of the slot are wall; each `'0'` block at rows `(2+dy)*3..` is wall; other slot cells go from wall to background or keep their value; cells outside the slot columns and row HEIGHT are unchanged |
| PyxelField.PutDigitIdempotent | waterclock.py:42-61 | stamping a digit twice equals stamping it once |
| PyxelField.PutDigitClosesDrains | waterclock.py:34-61 | stamping a slot after `remove_bottom_digit` equals stamping it without, so the restamp closes the drains |
| PyxelLiquid.EdgeShape | waterclock.py:128-136 | after the edge step the side columns of rows 0..HEIGHT-1 hold no liquid; each negative visible cell has risen by exactly one; every other cell, row HEIGHT included, is unchanged |
| PyxelLiquid.EdgeStep | waterclock.py:128-136 | the row loop leaves exactly `EdgeGrid(old field)` |
| PyxelLiquid.BottomShape | waterclock.py:138-144 | after the bottom step row HEIGHT holds only background or wall; a row-HEIGHT-1 cell over a background cell is background; over anything else it is kept; rows above are unchanged |
| PyxelLiquid.BottomStep | waterclock.py:138-144 | the column loop leaves exactly `BottomGrid(old field)` |
| PyxelLiquid.EdgeThenBottom | waterclock.py:128-144 | after both steps: no liquid in the side columns of rows 0..HEIGHT-1 or in row HEIGHT, background in row HEIGHT-1 over background in row HEIGHT, and negative cells risen by one where the bottom step did not clear them |
| PyxelLiquid.SplitIsTwoMoves | waterclock.py:154-160 | the split puts the two drops onto the two lower diagonals, in the order the shuffle chose, and clears both cells |
| PyxelLiquid.SplitKeeps | waterclock.py:154-160 | the split keeps walls and the count of every colour |
| PyxelLiquid.SplitAt | waterclock.py:154-160 | the four stores of a split leave exactly `Split(old field, y, x, flip)` |
| PyxelLiquid.FallAt | waterclock.py:150-166 | gravity at one cell leaves exactly `Fall(old field, y, x, flip)` |
| PyxelLiquid.MigrateAt | waterclock.py:168-172 | migration at one cell leaves exactly `Migrate(old field, y, x, liqChoice)` |
| PyxelLiquid.MoveLiquids | waterclock.py:146-172 | the bottom-to-top double loop leaves exactly `ScanGrid(old field, d)` |
| PyxelLiquid.ScanConserves | waterclock.py:146-172 | the scan keeps a field a field, changes no wall and keeps the count of every value |
| PyxelApp.BottomsRemovedOnlyDrains | waterclock.py:105-108 | removing the bottoms of the listed slots clears all their drain cells and changes nothing else |
| PyxelApp.OpenDrains | waterclock.py:104-108 | the detection loop returns the changed slots, in ascending order, and removes their bottoms |
| PyxelApp.StampDigits | waterclock.py:96-97 | restamping the pending slots leaves `PutDigitsAt(old field, ps, ds)` |
| PyxelApp.NextCountdown | waterclock.py:93-103 | first a non-negative countdown decreases by one, then a change sets it to 40; the range [-1, 40] is kept |
| PyxelApp.QuietCountdownIs | waterclock.py:93-94 | after n calls without a change the countdown is `max(c - n, -1)` |
| PyxelApp.RestampSchedule | waterclock.py:93-109 | with the time held, the restamp happens on exactly the 40th `update` after the trigger; the countdown is 40-k after the k-th, and -1 from the 41st on |
| PyxelApp.DigitStageKeepsField | waterclock.py:93-109 | the digit part of an update keeps a field a field |
| PyxelApp.DigitPhase | waterclock.py:93-109 | returns the new countdown and pending list and leaves `DigitStage(old field, …)`: the restamp with the old digits, then the drains of the new change |
| PyxelApp.Inject | waterclock.py:174-181 | on a dropping frame (every 11th in random mode, every 14th otherwise) row 0 at the drop column takes the colour; the column is in [3, WIDTH-3]; no other cell changes |
| PyxelApp.FieldStepKeepsField | waterclock.py:124-181 | a whole `field_update` keeps a field a field |
| PyxelApp.FieldPhase | waterclock.py:124-181 | the statements of `field_update` leave exactly `FieldStep(old field, …)` |
| PyxelApp.FieldFrame | waterclock.py:124-181 | `field_update` on a field leaves `FieldStep(old field, …)`, which is again a field |
| PyxelApp.PressC | waterclock.py:90-91 | key C advances the colour index modulo 4 and changes nothing else |
| PyxelApp.NextStage | waterclock.py:93-111 | after the digit part and `field_update` the digits of `now` are shown, the colour index is kept, and the state is well-formed |
| PyxelApp.InitialField | waterclock.py:68-77 | a fresh 25×51 array holding the initial layout with the four digits stamped, which is a field |
| PyxelApp.App.constructor | waterclock.py:65-83 | the initial field with the four digits of `now` stamped, countdown -1, no pending slots, colour index 0, and `Valid()` |
| PyxelApp.App.NextColor | waterclock.py:90-91 | key C advances the colour index modulo 4, the state as `PressC`; `Valid()` keeps it in [0, 4) |
| PyxelApp.App.UpdateDigits | waterclock.py:93-109 | new digits, pending list, countdown and field as `DigitStage`; `Valid()` kept |
| PyxelApp.App.FieldUpdate | waterclock.py:124-181 | the field becomes `FieldStep` with the current colour; `Valid()` kept |
| PyxelApp.App.Advance | waterclock.py:93-111 | the digit part, then `field_update`: the state becomes `NextStage` of the old one; `Valid()` kept |
| PyxelApp.App.Update | waterclock.py:87-111 | colour key, then the digit part, then `field_update` with the colour the key selected: the state becomes `NextStage(PressC(old state, keyC), …)`; `Valid()` kept |

## Left out

- Rendering is not modelled. This covers `AppPygame`, `AppCurses`, the older `App.draw`, the palettes, the colour pairs and the `prev_fields` flicker blending. The model keeps `prev_fields` only as the list `update` maintains.
- `handle_mouse` is not modelled: its scale and offset arithmetic is floating point.
- The run loops, frame pacing, the accelerated clock, `main`, argument parsing and `pyxel.init`/`pyxel.run` are left out as I/O and timing plumbing.
- The older `update` exits on key Q through `pyxel.quit()`; that is left out as I/O.
- `datetime.now()`, `random.*`, `pyxel.frame_count` and `pyxel.btnp` are parameters, not modelled.
- The import-time shuffle of `LIQUID_COLOR_QUEUE` is any rearrangement of the population, passed to the constructor. `BaseApp` gives it no name of its own.
- ClockApp.BaseApp.PopPicks: the `else 0` of `picks.pop() if picks else 0` cannot happen, because the queue was just refilled. `NextPick` still models it.
- `dropAccel` is always 0 in the source. `Valid()` fixes it to 0, so the period is 28 frames. `InjectDrop` keeps the source's expression for the phase; the functions that specify a frame use `DropPhase(frame) = frame % 28`, and `DropRhythm` shows the two agree.
- The newer file's first drop is not in the [WIDTH-13, WIDTH-2] window. The first `update` counts frame 1, which falls inside the first injection window, while `dropX` still holds its initial 0. So that drop is written to column 0, where the next drainage removes it (`ClockApp.FirstDropAtColumnZero`). From frame 28 on every drop lands in the window: frame 28 is the first frame of a period, which draws a column in the window, and the frame after it keeps that column (`ClockApp.DropColumnSettles`, `ClockApp.DropInWindow`, and `BaseApp.Settled`, which `Update` keeps).
- The newer file's "no liquid at the edges" holds right after drainage only. The movement scan that follows can move liquid into column 0, column WIDTH-1 or row HEIGHT, and `DrainGrid`'s contract says nothing about those later moves.
- In the older file the bottom step clears row HEIGHT-1 over every background cell of row HEIGHT, whatever that cell held. Row HEIGHT starts as background, so the first frame turns the wall of row 23 into background across the whole width. The model follows the code. No lemma claims row HEIGHT-1 keeps its walls, and the older `FieldStep` is stated only to keep a field a field. The newer file clears only liquid there.
- Python's `%` equals Dafny's on the operands that occur here: frame counts are non-negative and every divisor is positive.
