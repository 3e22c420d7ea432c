# Flappy-bird frame loop and scrolling background, modelled in Dafny

This project models the two pieces of deterministic logic in a small
side-scrolling game written in Rust: the scrolling background layer
(`Background` in `src/background.rs`) and one pass of the event-loop closure
in `src/main.rs`. The closure handles one input event. It measures the
elapsed time, which is frozen once the game is over. It then draws and
updates the five layers in a fixed order, presents the frame, runs the
collision and scoring checks, and schedules the next wake-up.

Files and modules:

- `floatops.dfy`, module `FloatOps`: `f32::ceil` and Rust's float `%` over
  exact reals. `%` is the truncated remainder, whose sign follows the
  dividend. Also proves that the remainder is unique and periodic on each
  side of zero.
- `render.dfy`, module `Render`: a frame is the ordered list of draw calls
  issued into it. `Texture` is a movable sprite whose `Draw` records one
  call at its current position.
- `background.dfy`, module `Background`: the tile count, the tile
  placement, the offset update, the facts proved about them, and the
  `Background` class. Its `Draw` changes only the texture it owns, and its
  `Update` changes only `offset`.
- `game_loop.dfy`, module `GameLoop`: the events, the fixed layer order,
  the ghost trace of calls made on collaborators, the game-over layer, and
  the `Game` class with its `Tick` method.

Modelling choices:

- Arithmetic is over `real`, standing in exactly for `f32`.
- Instants and durations are whole nanoseconds (`nat`).
- `Duration::as_secs_f32` is `Seconds(d) = d / 10^9`.
- `Instant - Instant` saturates at zero, as the Rust standard library does
  today.
- The tick reads the clock twice: `now` at line 71 and `later` at line 103.
  Both are inputs of `Tick`.
- `check_collision`'s answer is an input of `Tick`. The bird, the pipe
  system and the drawing done by the unmodelled layers are opaque. What the
  loop asks of them is recorded in the ghost `trace`.

Behaviour of the code worth noting:

- At `offset = 0` with `block_width = 1.4` there are three tiles, with left
  edges at -1, 0.4 and 1.8, one width apart.
- Tiling is periodic (`offset` and `offset + k*w` place tiles identically)
  when both offsets are on the same side of zero. Across zero it can fail,
  because the truncated `%` follows the sign of the offset: it does for
  offsets -0.7 and 0.7 at width 1.4 (`PeriodicityBreaksAcrossZero`).
- Coverage of [-1, 1] holds for `offset <= 0`. Non-negative speeds, the only
  ones the game uses, keep the offset there, and `Game.Tick` preserves that
  condition (`Game.Scrolling`). A positive offset that is not a whole
  multiple of the width leaves a gap at the left edge
  (`PositiveRemainderLeavesGap`).
- The block width is not checked to be positive when a layer is built.
- `bird.space_hit()` is called for every device key event whose virtual
  keycode is Space. The code does not look at the key state, so a press
  and its release each count.
- The closure runs a full tick for every event that is not a close request,
  not only for the timed wake-ups.

## Model

| member | source | states |
|---|---|---|
| `FloatOps.Ceil` | src/background.rs:38 | `ceil(x)` is the integer `c` with `c - 1 < x <= c` |
| `FloatOps.Trunc` | src/background.rs:46 | the quotient behind float `%` rounds toward zero: its magnitude is at most that of `x`, by less than 1, with the same sign |
| `FloatOps.Rem` | src/background.rs:46 | `offset % w` for `w > 0` lies strictly between `-w` and `w`, has the sign of `offset`, and is no farther from zero than `offset` |
| `FloatOps.RemUnique` | src/background.rs:46 | independent characterisation: any `r` with the sign of `a`, `abs(r) < w` and `a - r` a whole multiple of `w` equals `a % w` |
| `FloatOps.RemPeriodic` | src/background.rs:46 | shifting the dividend by `k*w` leaves `%` unchanged when the shift does not cross zero |
| `Background.Seconds` | src/background.rs:57 | `as_secs_f32` is non-negative and times 10^9 gives back the nanoseconds |
| `Background.TileCount` | src/background.rs:38 | `ceil(2/w) + 1` is at least 2, and one less than it is the fewest widths that span length 2: `(n-2)*w < 2 <= (n-1)*w` |
| `Background.RoundedUpQuotient` | src/background.rs:38 | a ceiling `c` of `2/w` is at least 1 and satisfies `(c-1)*w < 2 <= c*w` |
| `Background.TileLayout` | src/background.rs:45-49 | one draw holds `TileCount(w)` tiles, all at `y = -1 + height`; the first is at `-1 + offset % w`, and each next tile is exactly `w` to the right |
| `Background.ViewportEdges` | src/background.rs:38-49 | for `offset <= 0` the first tile starts at or left of -1 and the last ends right of 1 |
| `Background.NoGap` | src/background.rs:38-50 | for `offset <= 0` every point of [-1, 1] lies in some drawn tile `[x, x + w)` |
| `Background.PositiveRemainderLeavesGap` | src/background.rs:46 | for `w > 0` and a positive remainder `offset % w` (a positive offset that is not a whole multiple of `w`), every tile starts right of -1, so the viewport's left edge is uncovered |
| `Background.PositiveOffsetLeavesGap` | src/background.rs:46 | at `w = 1.4`, `offset = 0.7` every tile starts right of -1, so the viewport's left edge is uncovered |
| `Background.TilesPeriodic` | src/background.rs:46 | offsets `o` and `o + k*w` on the same side of zero give identical draw calls |
| `Background.PeriodicityBreaksAcrossZero` | src/background.rs:46 | offsets -0.7 and 0.7 differ by one width 1.4 but give different draw calls |
| `Background.AdvanceAdditive` | src/background.rs:56-58 | two updates by `d1` and `d2` equal one update by `d1 + d2`; an update by 0 changes nothing |
| `Background.AdvanceAllIsOneAdvance` | src/background.rs:56-58 | any run of updates equals one update by the total duration |
| `Background.AdvanceNonIncreasing` | src/background.rs:56-58 | with a non-negative speed an update never increases the offset |
| `Background.ForwardScrollKeepsOffsetNonPositive` | src/background.rs:56-58 | starting from offset 0 with a non-negative speed, the offset stays `<= 0` after any run of updates |
| `Background.WorkedCase` | src/main.rs:38-40 | at width 1.4: 3 tiles with edges -1, 0.4, 1.8; one second at speed 0.05 gives offset -0.05 and edges -1.05, 0.35, 1.75 |
| `Background.Background.constructor` | src/background.rs:16-29 | a new layer has offset 0, the given width and speed, and a fresh texture of that width at (0, 0) |
| `Background.Background.Draw` | src/background.rs:32-54 | appends exactly `Tiles(width, offset, height)` to the frame, in order; only the owned texture changes (left at the last tile), never offset, speed or width |
| `Background.Background.Update` | src/background.rs:56-58 | `offset' = offset - seconds(dt) * speed`, nothing else changes |
| `GameLoop.LayerPassAt` | src/main.rs:79-94 | in the layer loop, position `2k` draws layer `k` and position `2k+1` updates it: in order, and each draw before its own update |
| `GameLoop.LayerPassCalls` | src/main.rs:91-94 | the layer loop makes only draw and update calls, and every update receives the same `dt` |
| `GameLoop.TickOrder` | src/main.rs:56-100 | a tick's calls: key handling, then the five layers in the order background, pipe system, base, bird, game over (draw then update, same `dt`), then finish, then the collision check, `set_end` exactly on a collision, and `check_points` last; no draw or update after finish |
| `GameLoop.SpaceHitOnce` | src/main.rs:56-69 | `space_hit` is called exactly once in a tick whose event is a Space key event, and never in any other tick |
| `GameLoop.GameOverLayer.constructor` | src/main.rs:36 | the game-over layer starts with the game not ended (`GameState::Rolling`) |
| `GameLoop.GameOverLayer.SetEnd` | src/main.rs:97-98 | after `set_end`, `game_ended()` is true |
| `GameLoop.Game.constructor` | src/main.rs:36-45 | set-up: background width 1.4 speed 0.05, base width 1.4 speed 0.2, both at offset 0 (so `Scrolling` holds), game rolling, `last_time` the start instant |
| `GameLoop.Game.DrawLayer` | src/main.rs:92 | a layer's draw appends its own draw calls to the frame and changes no offset |
| `GameLoop.Game.UpdateLayer` | src/main.rs:93 | a layer's update changes only its own offset (for the two scrolling layers) |
| `GameLoop.Game.ComposeLayers` | src/main.rs:87-94 | the frame is the clear call then every layer's draw calls in order, drawn at the offsets from before the loop; both scrolling layers advance by `dt` |
| `GameLoop.Game.Tick` | src/main.rs:47-105 | in every tick, both scrolling layers keep a non-negative speed and a non-positive offset if they had them (`Scrolling`). Close request: control flow `Exit`, nothing else changes, textures included. Otherwise: `last_time = now`; `dt = now - last_time`, or 0 if the game had ended; the calls follow `TickCalls`; one frame is presented; both scrolling layers advance by that `dt`; a collision ends the game; control flow `WaitUntil(later + 20 ms)` |
| `GameLoop.CollisionFreezesNextTick` | src/main.rs:75-100 | after a tick with a collision the game has ended, and the next tick passes `dt = 0` to every layer, so the scrolling layers do not move |

## Left out

- Window, context and event-loop creation, shader reading and program compilation (src/main.rs:23-35) are I/O and library set-up. `pipe_system.init()` (src/main.rs:43) belongs to the pipe system, which is not part of this model.
- GPU drawing (`Frame`, `Program`, `Facade`, pixels) is not modelled. The texture module is not part of this model: `Render.Texture` only records the position of each draw call. The texture's height, which the loaded image decides, is a constructor parameter.
- The internals of `Bird`, `PipeSystem`, `GameOverLayer`, `check_collision` and `check_points` are not part of this model. Their calls are recorded in the ghost trace, and the collision answer is an input.
- GameLoop.GameOverLayer: models only the ended flag. It assumes that no layer's draw or update clears the flag, which its unseen source would have to confirm.
- GameLoop.Game.Tick: assumes `frame.finish()` succeeds. When it fails the program panics, and that path is not modelled. The `game_ended()` and `get_height()` queries are not recorded in the trace.
- Background.Background.constructor: requires a positive block width, which the source does not check. With a width of 0, `2. / w` is infinite. For a width of 0, or any positive width below about 10^-9, `(2. / w).ceil() as i32` saturates at `i32::MAX` (src/background.rs:38). The `+ 1` after it then overflows: a debug build panics, and a release build wraps to `i32::MIN`, so nothing is drawn. A negative width in [-2, 0) gives a count of at most 0, so no tile; a width below -2 gives one tile.
- Background.TileCount: the tile count is an unbounded integer, so the `i32` saturation and overflow above are not modelled; they need widths below about 10^-9, which the positive-width requirement does not exclude.
- Bit-exact `f32` rounding is not modelled, so additivity and periodicity are exact here. The code guarantees them only up to float rounding.
- The `RefCell` borrow and release around the texture (src/background.rs:40-44) and the unused `start_time` field (src/background.rs:9, 25) have no behavioural content.
- How long `WaitUntil` actually sleeps, and which events the window system delivers, are outside the model. Only the computed deadline is modelled.
