# Pong game logic, modelled in Dafny

A model of the game logic of a minimal two-paddle Pong written in Go on top of
SDL2 (`pong.go`). The program draws each frame pixel by pixel: the paddles as
filled rectangles and the ball as a filled disc, with nothing but "draw a point".
Each frame then moves the ball, bounces it off the walls and the paddles, and
resets it to the centre when a point is scored. It moves the player's paddle
from the keyboard and makes the opponent's paddle follow the ball. It also
keeps frame counters to sample the FPS and to throttle to 60 frames a second.

The model keeps the program's imperative shape. `Paddle`, `Ball` and the frame
counters are classes whose methods update their fields in place. The renderer
is a class whose `DrawPoint` appends a point to a sequence. The drawing
routines are the source's nested loops, proved against pure functions of the
pixel sequence they emit (`Rect`, `Disc`). The physics step and the paddle
controller are proved against pure step functions (`BallStep`, `ControlledY`).
The properties of the game are lemmas about those functions.

Modules, one file each:

- `Screen` (screen.dfy): the window size 800 x 800, the paddle size 20 x 100,
  the snap value 750 and the `Position` value.
- `Raster` (raster.dfy): the renderer's point log; rectangle and disc pixel
  sequences; their length, index, membership and row-major order.
- `Entities` (entities.dfy): the `Paddle` and `Ball` classes, the paddle
  controllers, and the ball physics step with its properties.
- `Timing` (timing.dfy): unsigned 64-bit tick arithmetic, the FPS sample and
  the frame-rate throttle.
- `GameLoop` (game.dfy): the objects `main` creates, one frame of the main
  loop in its fixed order, and the loop run over a finite script of inputs.

Numbers. Positions and velocities are `float32` in the source, but every
reachable value is a small integer, so the model uses `int`. These values are
the start (300, 300), the velocity (7, 10), the reset x 400, the paddle step
10, the half-extents 10 and 50, and the snap value 750. The truncating
`int32(...)` conversions are kept where they could matter. A paddle's first
pixel is `int32(x - width/2)`, modelled as half of `2x - width` rounded toward
zero (`Raster.TruncHalf`); this equals `x - width/2` for the even sizes the
game uses. The uint64 counters wrap modulo 2^64 (`Timing.Add`, `Timing.Sub`).

Behaviours of the code worth noting:

- On a score the ball's y is not left untouched. Integration runs first, so y
  has already moved by yv when x is reset to 400 (pong.go:100-107).
- The paddle-bounce tests use the global paddle size constants, not the
  paddle's own fields (pong.go:119, pong.go:122).
- `paddles.update` draws the paddle again at its new position after moving it
  (pong.go:146). Every frame therefore emits the player's paddle a second
  time, after the present.
- The side-wall test on xv (pong.go:114-116) can never hold once the scoring
  test has failed. `Entities.SideWallNeverFlips` proves this, so only the two
  paddle tests ever flip xv.

## Model

| member | source | states |
|---|---|---|
| `Raster.Renderer.DrawPoint` | pong.go:72 | the renderer receives exactly one more point, (x, y), after all earlier ones |
| `Raster.TruncHalf` | pong.go:72 | the result is n/2 truncated toward zero, as Go's float-to-int32 conversion gives: within one half of n/2, on the side of zero |
| `Raster.Corner` | pong.go:54-55 | the paddle's first pixel coordinate `int32(centre - extent/2)` is exactly `centre - extent/2` for an even extent, and within 1 of it otherwise |
| `Raster.RowContents` | pong.go:71-73 | the inner loop emits `n` points, point i being column `sx + i` of the row |
| `Raster.RowMembership` | pong.go:71-73 | a row holds a point iff the point is on that line and between its first and last column |
| `Raster.RowIsRowMajor` | pong.go:71-73 | a row's points come left to right |
| `Raster.RectLength` | pong.go:70-74 | a w x h paddle emits exactly w * h points |
| `Raster.RectAt` | pong.go:70-74 | the point emitted at position j * w + i is (startX + i, startY + j): rows outer, columns inner |
| `Raster.RectAtRow` | pong.go:70-74 | row j of the rectangle starts right after the points of the j rows before it, column i of it being (startX + i, startY + j) |
| `Raster.RectIndex` | pong.go:70-74 | every pixel inside the rectangle's bounds is emitted |
| `Raster.RectBounds` | pong.go:70-74 | every point the rectangle emits lies inside its bounds |
| `Raster.RectMembership` | pong.go:54-74 | the rectangle holds a point iff startX <= px < startX + w and startY <= py < startY + h; nothing else is drawn |
| `Raster.RectIsRowMajor` | pong.go:70-74 | the rectangle's points come in strictly increasing row-major order, so no point is emitted twice |
| `Raster.DiscRowBounds` | pong.go:85-94 | every point of one row of the disc is on that row, at a column offset in [-r, hi), and passes the disc test |
| `Raster.DiscRowsBounds` | pong.go:84-95 | every point of the rows so far has its row offset in [-r, hi), its column offset in [-r, r), and passes the disc test |
| `Raster.DiscRowIndex` | pong.go:85-94 | every column offset in [-r, hi) that passes the disc test is emitted in its row |
| `Raster.DiscRowsIndex` | pong.go:84-95 | every offset with row in [-r, hi) and column in [-r, r) that passes the disc test is emitted |
| `Raster.DiscMembership` | pong.go:79-95 | the ball emits the point at offset (dx, dy) from its centre iff -r <= dx < r, -r <= dy < r and dx*dx + dy*dy <= r*r |
| `Raster.DiscRowIsRowMajor` | pong.go:85-94 | within one row of the disc the points come left to right |
| `Raster.DiscRowsIsRowMajor` | pong.go:84-95 | the rows of the disc come top to bottom, each left to right |
| `Raster.DiscIsRowMajor` | pong.go:84-95 | the disc's points come in row order and no point is emitted twice |
| `Entities.OffScreen` | pong.go:142 | the paddle reaches past the top or the bottom edge: y - height/2 < 0 or y + height/2 > 800, with the halves compared exactly |
| `Entities.ControlledY` | pong.go:132-144 | the player's paddle's y after a frame: moved by -10 for up and +10 for down, then put at 750 if it sticks out; its properties are the four lemmas below |
| `Entities.ControlledYMoves` | pong.go:132-144 | the player's paddle moves by -10 for up, +10 for down and 0 for both or neither, unless the moved paddle sticks out, in which case it lands at winHeight - 50 |
| `Entities.ControlledYOnScreen` | pong.go:142-144 | after the controller a paddle no taller than 100 is inside the screen whatever its y before; the standard paddle's y is in [50, 750] |
| `Entities.ControlledYSnapsToBottom` | pong.go:142-143 | the recovery is a snap, not a clamp: a paddle pushed past the top also lands at 750, in the bottom half |
| `Entities.ControlledYIdle` | pong.go:134-144 | an on-screen paddle stays put when no key, or both keys, are held |
| `Entities.Paddle.Draw` | pong.go:48-75 | the nested loops append exactly the paddle's rectangle `Pixels()` to the renderer's points |
| `Entities.Paddle.Update` | pong.go:132-147 | only y changes, to `ControlledY` of the old y and the keys; the paddle is then drawn at its new position |
| `Entities.Paddle.AiUpdate` | pong.go:128-130 | the paddle's y becomes the ball's y; nothing else in the paddle and nothing in the ball changes |
| `Entities.Scores` | pong.go:104 | the moved ball touches or passes the left or right edge: x - r <= 0 or x + r >= 800 |
| `Entities.HitsTopOrBottom` | pong.go:111 | the moved ball sticks out at the top or the bottom: y - r < 0 or y + r > 800 |
| `Entities.HitsSide` | pong.go:114 | the moved ball sticks out at the left or the right: x - r < 0 or x + r > 800 |
| `Entities.HitsLeftPaddle` | pong.go:119 | the ball's left edge is left of x + 10 of the left paddle, and its bottom edge y + r is strictly between the paddle's y - 50 and y + 50 |
| `Entities.HitsRightPaddle` | pong.go:122 | the ball's right edge is right of x - 10 of the right paddle, and its bottom edge y + r is strictly between the paddle's y - 50 and y + 50 |
| `Entities.BallStep` | pong.go:99-126 | one physics step as a value: integrate, then either score or run the top/bottom, side and two paddle tests in order; its properties are the lemmas below |
| `Entities.BallScoring` | pong.go:100-107 | when the moved ball reaches the left or right edge, x becomes 400, y is old y + yv, and both velocities are unchanged: no bounce test runs |
| `Entities.BallWallBounce` | pong.go:100-113 | without a score the ball has moved by its old velocity, and yv is negated exactly when the moved ball sticks out at the top or bottom |
| `Entities.BallHorizontalBounces` | pong.go:114-124 | without a score the final xv is the old xv times (-1)^k, k being the number of true tests among side wall, left paddle and right paddle |
| `Entities.SideWallNeverFlips` | pong.go:104-116 | once no point is scored the side-wall test is false, so k counts only the two paddle tests |
| `Entities.BallSpeedKept` | pong.go:99-125 | a step only ever negates xv and yv, never changes their size, and keeps the radius |
| `Entities.BallStaysBetweenSides` | pong.go:100-107 | after any step a ball of radius below 400 lies strictly between the left and right edges |
| `Entities.Ball.Draw` | pong.go:77-97 | the nested loops over [-r, r) x [-r, r) append exactly the disc `Pixels()` to the renderer's points |
| `Entities.Ball.Update` | pong.go:99-126 | only x, y, xv and yv change, to `BallStep` of the old state and the paddles' positions; the paddles are only read |
| `Timing.Add` | pong.go:237 | uint64 addition: the exact sum, less 2^64 when it overflows |
| `Timing.Sub` | pong.go:274 | uint64 subtraction: the exact difference, plus 2^64 when it would be negative |
| `Timing.SampleDue` | pong.go:237 | daemon's sample test `lastFrame >= lastTime + 1000`, the sum taken in uint64 |
| `Timing.SampleDueAfterASecond` | pong.go:237 | while lastTime + 1000 does not overflow, a sample is due iff at least 1000 ms have passed since lastTime |
| `Timing.SampleDueNearWrap` | pong.go:237 | in the last second of the tick range the wrapped sum makes a sample due immediately |
| `Timing.FrameDelay` | pong.go:275-277 | a delay is requested iff timerFPS < 1000/60; it then lies in [1, 16] and timerFPS + delay == 16 |
| `Timing.FrameClock.Daemon` | pong.go:235-241 | lastFrame becomes the tick; when a sample is due lastTime becomes lastFrame, fps the old frameCount and frameCount 0, otherwise all three are unchanged |
| `Timing.FrameClock.BeginRender` | pong.go:267-279 | frameCount grows by 1 (mod 2^64), timerFPS is the ticks since lastFrame, and the returned delay is `FrameDelay(timerFPS)` |
| `GameLoop.Game.constructor` | pong.go:149-157 | paddles at (20, 400) and (780, 400) of size 20 x 100, the ball at (300, 300) with radius 20 and velocity (7, 10), running set, no point drawn, all frame counters zero; the five objects are newly allocated, so the game's frames can be run on them |
| `GameLoop.Game.DrawScene` | pong.go:166-168 | the draw phase emits pad1's rectangle, then pad2's, then the ball's disc, each at its current position |
| `GameLoop.Game.UpdateScene` | pong.go:177-179 | the ball steps against the paddles as they were, then pad1 follows the keys and draws itself again, then pad2.y becomes the new ball.y |
| `GameLoop.Game.Frame` | pong.go:158-181 | one frame emits pad1, pad2 and the ball at their old positions, then pad1 at its new one; the ball steps against the paddles as they were; pad1 follows the keys; pad2.y ends equal to the new ball.y; running drops on quit or escape, after the whole frame; the clock takes daemon's sample (lastTime and fps move on when a sample is due and are kept otherwise), counts the frame, sets timerFPS to the ticks since the frame began, and the delay is `FrameDelay(timerFPS)` |
| `GameLoop.FramesPlayed` | pong.go:158-181 | the loop plays every frame of the script up to and including the first that quits or presses escape, and no frame before that one stops it |
| `GameLoop.FramesPlayedStop` | pong.go:171-173 | a frame that stops the loop after frames that did not is the last frame played |
| `GameLoop.FramesPlayedAll` | pong.go:158 | a script with no stopping frame is played to its end |
| `GameLoop.Game.Play` | pong.go:158-181 | when `running` is set on entry the loop runs exactly `FramesPlayed(script)` frames, otherwise none, and `running` is still set iff no frame stopped it |

## Left out

- The SDL lifecycle (`start`, `startSet`, `quit`, window and renderer creation, and the `panic` on an init error) is left out. These are foreign calls with no game logic.
- `SetDrawColor`, `Clear`, `Present`, `SetRenderTarget` and the colours are left out, and so are `setSdlColor` and `setRGBAColor`. Colour plays no part in the behaviour modelled. The renderer keeps only the points passed to `DrawPoint`.
- `sdl.Delay` is left out: `BeginRender` and `Frame` return the delay they would request, and nothing sleeps.
- Event and keyboard polling are left out. `sdl.PollEvent`, `sdl.GetKeyboardState` and `sdl.GetTicks64` become the fields of `FrameInput`: a quit flag, the up, down and escape keys, and the two tick readings.
- The mouse state is read but never used, so it is dropped.
- The `for running` loop never ends on its own. The model runs it over a finite script of frame inputs (`Game.Play`), which also ends when the script does.
- float32 rounding is not modelled: coordinates and velocities are integers, which is exact for every reachable state.
- int32 wrap-around is not modelled, neither in the coordinates passed to `DrawPoint` nor in the disc test's int32 products `x*x + y*y` and `radius*radius` (pong.go:90). `Raster.InDisc` and `Raster.DiscMembership` use exact integers for every radius, whereas the source's products would wrap once the radius exceeds 32767. This is harmless here: the game's only ball has radius 20, so every drawn coordinate and every product is far inside the int32 range.
- GameLoop.Game.Play: states how many frames run and whether `running` is still set, not the state of the ball, the paddles, the renderer or the clock after several frames. That state is given one frame at a time by `GameLoop.Game.Frame` and is not composed over the script.
- Paddle width and height are `nat`. The game only ever uses 20 and 100 and never changes them.
