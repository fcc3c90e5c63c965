# Tilted, modelled in Dafny

Tilted is an arcade game for a TI MSP432 board with a 128 x 128 colour LCD
and an accelerometer. The player is a small disc that rolls as the board is
tilted. Rings ("walls") centred on the screen close in on the player, one
pixel per frame. Each ring has an angular gap. Slipping through the gap of
the innermost ring removes that ring and shortens the spawn period. Being
caught by the innermost ring ends the game.

This project models the sequential core of the game and proves properties
of that model:

- the circular wall buffer (`WallBuffers`);
- the framebuffer rasteriser and its byte stream to the panel (`LcdShapes`,
  `LcdDriver`);
- the 2-D vector routines and the collision tests (`RealMath`, `Vectors`,
  `Collision`);
- the wall and player entities (`Walls`, `Players`);
- one frame of the main loop, with the spawn-timer difficulty ramp (`Game`);
- the decimal formatter of the debug logger (`UartLogger`).

`Wrappers` holds the `Option` type.

Modelling choices:

- `double` is read as `real`.
- `sqrt`, `cos`, `sin` and `atan2` are not computed. They are passed in as a
  `MathLib` value. `RealMath.Sound` names the only laws the proofs assume:
  `sqrt` is the non-negative square root, and `cos² + sin² = 1`.
- The C cast of a `double` to an integer is `RealMath.Trunc`, truncation
  toward zero.
- State the C code updates in place is kept in place:
  - the framebuffer is an `array<bv16>` inside class `Lcd`, with the two
    colour registers;
  - the bytes sent to the panel are appended to a `log` field;
  - the wall buffer is class `WallBuffer` over an `array<Wall>`, with slot
    indices in place of pointers;
  - the player and the spawn timer (`CCR[0]`, `R`) are classes with fields;
  - `numToString` fills an `array<char>`.
- Each drawing primitive is proved against a pure set of pixels from
  `LcdShapes` that follows the same midpoint stepping. The contract is
  `LcdDriver.Painted`: exactly those pixels take the colour, and every other
  pixel is unchanged.
- Two behaviours of `lcdDriver.c` worth knowing:
  - `drawArc(cx, cy, r, -pi, pi)` draws the single pixel (cx - r, cy), not
    the circle: both end points truncate to (-r, 0), so the clipping window
    collapses to that one offset. `LcdShapes.FullTurnArcIsOnePixel` proves
    this.
  - The y checks of `drawLine`'s bounds guard can never fire (see Findings).

## Model

| member | source | states |
|---|---|---|
| WallBuffers.ErrorCodesDistinct | wallBuffer.h:17-22 | the four error codes are pairwise distinct and only `NO_ERROR` is 0 |
| WallBuffers.Advance | wallBuffer.h:58-67 | the next slot stays below the size; it is `i + 1` below the last slot and 0 from the last slot, i.e. `(i + 1) mod size` |
| WallBuffers.AdvanceTimesIsMod | wallBuffer.h:58-67 | advancing k times (k up to the size) moves k slots modulo the size |
| WallBuffers.FullCycle | wallBuffer.h:58-67 | advancing once per slot returns to the starting slot |
| WallBuffers.Live | wallBuffer.h:25-39 | the abstract queue: its k-th element is the wall k slots after the tail |
| WallBuffers.LiveStore | wallBuffer.c:38-52 | writing at the slot numItems after the tail appends that wall to the queue |
| WallBuffers.WallBuffer.constructor | wallBuffer.c:12-21 | a fresh array of the requested size, no items, head and tail at slot 0, an empty queue |
| WallBuffers.WallBuffer.Destroy | wallBuffer.c:23-36 | the buffer is left with no slots, all counters zero and an empty queue |
| WallBuffers.WallBuffer.AddWall | wallBuffer.c:38-52 | when full: `OVERFLOW` and nothing changes; otherwise the old head slot holds a new wall with the given angles and radius 63, the other slots and the tail are unchanged, the head advances, the count rises by one and the queue gains the wall at its end; `head == (tail + numItems) mod size` is kept |
| WallBuffers.WallBuffer.RemoveWall | wallBuffer.c:54-69 | when empty: `UNDERFLOW`, no wall and nothing changes; otherwise the returned wall is the old tail slot and the front of the queue, the tail advances, the count drops by one, the slots are untouched and the queue loses its front; the invariant is kept |
| WallBuffers.WallBuffer.EmptyBuffer | wallBuffer.c:71-75 | no items, head and tail at slot 0, an empty queue; the stored walls and the size are untouched |
| WallBuffers.FirstInFirstOut | wallBuffer.c:38-69 | two walls added to an empty buffer come out in the order they went in, and a third removal underflows |
| LcdDriver.Lcd.constructor | lcdDriver.c:12-20 | the framebuffer holds 128 * 128 zero pixels, the foreground is black (0x0000), the background white (0xffff), and nothing has been sent |
| LcdDriver.Lcd.WriteCommand | lcdDriver.c:29-36 | one command byte is appended to the output, and nothing else changes |
| LcdDriver.MakeColor16 | lcdDriver.h:135 | for r < 32, g < 64, b < 32 the fields land in bits 11-15, 5-10 and 0-4, the value is `r*2048 + g*32 + b`, and each field reads back |
| LcdDriver.ColorFieldsRoundTrip | lcdDriver.h:135 | every 16-bit colour is `MAKE_COLOR16` of its own three fields |
| LcdDriver.Lcd.SetForegroundColor | lcdDriver.h:142-144 | only the foreground colour changes, to the given one |
| LcdDriver.Lcd.SetBackgroundColor | lcdDriver.h:147-149 | only the background colour changes, to the given one |
| LcdShapes.PointAt | lcdDriver.c:162-164 | row-major layout: every index below 128 * 128 is the index `y*128 + x` of exactly one on-screen pixel |
| LcdDriver.Lcd.DrawPixel | lcdDriver.c:176-186 | on screen: the foreground colour is stored at `y*128 + x` and `NO_ERROR` is returned; off screen: `OUT_OF_BOUNDS` and the buffer is unchanged |
| LcdDriver.Lcd.FillRect | lcdDriver.c:193-234 | with both corners on screen, exactly the inclusive rectangle takes the foreground colour; otherwise `OUT_OF_BOUNDS` and nothing changes |
| LcdDriver.Lcd.Plot | lcdDriver.c:225 | one foreground store: the pixels painted so far gain exactly the given on-screen pixel, every other pixel keeps its value |
| LcdShapes.RectCornersInterchangeable | lcdDriver.c:193-234 | swapping the corners, or only their y coordinates, gives the same rectangle, which is the pixels between the corners in both axes |
| LcdDriver.Lcd.DrawLineVertical | lcdDriver.c:303-329 | with both ends on screen, exactly the inclusive vertical segment is painted; otherwise `OUT_OF_BOUNDS` and nothing changes |
| LcdDriver.Lcd.DrawLineHorizontal | lcdDriver.c:336-362 | the same for a horizontal segment |
| LcdShapes.SegmentEndsInterchangeable | lcdDriver.c:303-362 | the order of a segment's end points does not matter |
| LcdDriver.Lcd.DrawLine | lcdDriver.c:241-296 | for an axis-aligned line: if any coordinate is off screen, `OUT_OF_BOUNDS` and nothing changes; otherwise exactly the matching vertical or horizontal segment is painted, by the delegated call and the zero-slope stepping loop together (with the corrected guard, see Findings) |
| LcdShapes.LineGuardAsWrittenIgnoresY | lcdDriver.c:243-244 | the guard as written rejects a line exactly when an x coordinate is off screen |
| LcdShapes.LineGuardAsWrittenAdmitsOffScreenWrite | lcdDriver.c:243-246 | the guard as written lets the line (0, -5)-(0, 10) through, and that line's sweep reaches the off-screen pixel (0, -5) |
| LcdShapes.LineGuardProtectsSweep | lcdDriver.c:241-296 | with the corrected guard passed, every pixel an axis-aligned sweep visits is on screen |
| LcdShapes.NextMidpoint | lcdDriver.c:389-407 | each midpoint step raises y by one and lowers x by at most one, so x - y strictly decreases |
| LcdDriver.StepMidpoint | lcdDriver.c:398-403 | the in-place update at the end of each turn of the midpoint loops (also lines 437-442 and 557-562) produces exactly the next midpoint state |
| LcdDriver.Lcd.DrawCircle | lcdDriver.c:369-409 | when the bounding box is on screen, exactly the midpoint circle points are painted; otherwise `OUT_OF_BOUNDS` and nothing changes |
| LcdDriver.Lcd.PlotUpper | lcdDriver.c:382-388 | the four first- and second-quadrant stores of one step add exactly those four reflections of (x, y) to the painted set |
| LcdDriver.Lcd.PlotLower | lcdDriver.c:390-396 | the four third- and fourth-quadrant stores add exactly the other four reflections |
| LcdShapes.CirclePointsInBox | lcdDriver.c:369-409 | every circle point lies in [cx-r, cx+r] x [cy-r, cy+r] |
| LcdShapes.CircleSymmetric | lcdDriver.c:389-407 | the circle is closed under the eight octant reflections about its centre |
| LcdShapes.CircleOnScreen | lcdDriver.c:371-377 | when the guard passes, every circle point is on screen |
| LcdDriver.Lcd.FillCircle | lcdDriver.c:416-448 | when the bounding box is on screen, exactly the disc of vertical chords is painted; otherwise `OUT_OF_BOUNDS` and nothing changes |
| LcdDriver.Lcd.FillRightChords | lcdDriver.c:429-431 | the two chords at x and y to the right of the centre are painted, and nothing else changes |
| LcdDriver.Lcd.FillLeftChords | lcdDriver.c:433-435 | the two chords at -x and -y to the left of the centre are painted, and nothing else changes |
| LcdShapes.DiscShape | lcdDriver.c:430-446 | every disc pixel lies in the bounding box, and the disc is symmetric about both centre lines |
| LcdShapes.CircleInsideDisc | lcdDriver.c:369-448 | every pixel `drawCircle` plots is also filled by `fillCircle` |
| LcdShapes.ArcWindow | lcdDriver.c:484-519 | for end points within the radius, the window contains both end points and stays within the radius box |
| LcdDriver.Lcd.DrawArc | lcdDriver.c:460-568 | equal angles: `OUT_OF_BOUNDS` and nothing changes; otherwise exactly the circle points inside the window built from the truncated end points are painted |
| LcdDriver.ArcEndsFor | lcdDriver.c:473-476 | each cast end-point coordinate is within 1 of r times cos or sin of its angle |
| LcdDriver.ArcWindowFor | lcdDriver.c:478-519 | with a sound cos/sin and r >= 0, the window contains both cast end points and stays within [-r, r] in both axes |
| LcdDriver.Lcd.DrawClippedCircle | lcdDriver.c:521-563 | the midpoint loop with the window test paints exactly the arc points, the circle points whose offset lies in the window, and nothing else |
| LcdDriver.Lcd.PlotClipped | lcdDriver.c:526-528 | one `BOUND_X`/`BOUND_Y`-guarded store: the offset pixel is added to the painted set exactly when its offset lies in the window |
| LcdDriver.Lcd.PlotClippedUpper | lcdDriver.c:525-540 | the four guarded first- and second-quadrant stores add exactly the in-window ones of those reflections |
| LcdDriver.Lcd.PlotClippedLower | lcdDriver.c:542-556 | the same for the four third- and fourth-quadrant stores |
| LcdShapes.ArcIsClippedCircle | lcdDriver.c:524-563 | a pixel is on the arc exactly when it is a circle point whose offset from the centre lies in the window |
| LcdShapes.FullTurnArcIsOnePixel | lcdDriver.c:473-497 | for end points that both truncate to (-r, 0), as a sweep from -pi to pi gives, the arc is the single pixel (cx - r, cy) |
| LcdShapes.ArcOnScreen | lcdDriver.c:460-568 | an arc of a circle whose box is on screen writes only on-screen pixels |
| LcdDriver.Lcd.ClearBuffer | lcdDriver.c:574-581 | every pixel becomes the background colour, the same as filling the whole screen with it |
| LcdDriver.FrameDataAt | lcdDriver.c:583-604 | in the frame byte stream, pixel i is sent as bytes 2i (high byte) and 2i+1 (low byte), and joining them gives the pixel back |
| LcdDriver.JoinSplit | lcdDriver.c:589-590 | the high byte and the low byte together give the colour back |
| LcdDriver.Lcd.WriteData | lcdDriver.c:38-41 | one data byte is appended to the output |
| LcdDriver.Lcd.SendBuffer | lcdDriver.c:583-592 | the output gains the RAM-write command and then every pixel in index order, high byte first; the framebuffer is unchanged |
| LcdDriver.Lcd.SendAndClearBuffer | lcdDriver.c:594-604 | the output gains the command and the old frame's 2 * 128 * 128 bytes, and then every pixel equals the background colour |
| LcdDriver.Lcd.SendCustomBuffer | lcdDriver.c:606-613 | the output gains the command and the first 2 * 128 * 128 bytes of the image, verbatim |
| Vectors.Add | vector2d.h:48-54 | subtracting either term from the sum gives the other term |
| Vectors.Subtract | vector2d.h:56-62 | the difference is the zero vector exactly when the two vectors are equal |
| Vectors.Magnitude | vector2d.h:21-23 | with a sound square root, the magnitude is non-negative and its square is x*x + y*y |
| Vectors.WithDirection | vector2d.c:30-36 | the new vector is parallel to (cos, sin) of the direction |
| Vectors.SubtractUndoesAdd | vector2d.h:49-62 | subtracting b after adding it gives the vector back |
| Vectors.Vector2dRef.SelfAdd | vector2d.h:37-41 | the vector becomes the componentwise sum with the argument; the argument is a value and is not changed |
| Vectors.Vector2dRef.SelfSubtract | vector2d.h:43-47 | the vector becomes the componentwise difference |
| Vectors.MagnitudeLaws | vector2d.h:21-23 | with a sound square root, the magnitude is non-negative, squares to the squared length, and is 0 exactly for the zero vector |
| Vectors.WithMagnitude | vector2d.c:16-28 | y == 0 gives (m, 0); y != 0 with x == 0 gives (0, m); otherwise the x:y ratio is kept |
| Vectors.WithMagnitudeHasMagnitude | vector2d.c:22-27 | in the general branch the new magnitude is abs(m) |
| Vectors.WithOwnMagnitudeOffAxes | vector2d.c:22-27 | off the axes, setting a vector's own magnitude leaves it unchanged |
| Vectors.WithOwnMagnitudeFlipsNegativeAxis | vector2d.c:18-19 | on the axes the result is m itself, not abs(m): (-1, 0) given its own magnitude becomes (1, 0) |
| Vectors.Vector2dRef.SetMagnitude | vector2d.c:16-28 | the vector becomes `WithMagnitude` of its old value |
| Vectors.WithDirectionKeepsMagnitude | vector2d.c:30-36 | setting the direction keeps the magnitude, given `cos² + sin² = 1` |
| Vectors.Vector2dRef.SetDirection | vector2d.c:30-36 | the vector becomes its old magnitude along the new direction |
| RealMath.Trunc | collision.c:45-48 | the integer cast is within 1 of the value, no larger in magnitude, and of the same sign |
| Collision.AngleWithinInterval | collision.c:20-28 | end > start: strictly between; end < start: above start or below end; equal: the angle itself only; what this means as a counter-clockwise arc is the next row |
| Collision.AngleWithinIntervalIsCcwArc | collision.c:20-28 | for angles in (-pi, pi] and distinct bounds, the angle is inside exactly when it lies strictly between start and end on the counter-clockwise sweep from start, measured as an offset in [0, 2pi) |
| Collision.EndpointsOutside | collision.c:21-24 | a proper interval never contains its own end points |
| Collision.ComplementaryIntervals | collision.c:20-28 | away from the end points, an angle lies in exactly one of an interval and its reverse |
| Collision.Collide | collision.c:30-80 | `NO_COLLISION` exactly when the distance from (63, 63) is below `radius - 4 - 1`; `GAP_COLLISION` exactly when the distance is at least that, the angle is in the gap, and both gap end points are more than 4 away; otherwise `WALL_COLLISION` |
| Collision.OutsideGapHitsWall | collision.c:43-75 | past the contact distance, an angle outside the gap is always a wall hit |
| Collision.NoCollisionInsideCircle | collision.c:36-39 | with a sound square root, no collision exactly when the squared distance is below the squared contact distance |
| Collision.GapCollisionClearOfEnds | collision.c:62-70 | a gap hit puts the player more than 4 from each gap end point, in squared distance |
| Collision.BoundaryGapOnlyAtZero | collision.c:25-26 | the boundary wall, with no gap, can report a gap hit only for a player at angle exactly 0 |
| Collision.GapStart | collision.c:45-46 | the gap's start end point is within one pixel, in each axis, of radius times (cos, sin) of the start angle |
| Collision.GapEnd | collision.c:47-48 | the same for the end angle |
| Collision.NormalVector | collision.c:82-100 | the normal vector is parallel to (cos, sin) of the player's angle about (63, 63) plus pi |
| Collision.NormalVectorShape | collision.c:82-100 | the normal vector has length abs(abs(gravity) + speed) and points along the player's angle plus pi |
| Collision.NormalVectorMagnitude | collision.c:90-97 | for a non-negative speed its length is exactly abs(gravity) + speed |
| Walls.WallColors | wall.h:26-27 | the wall colour is 0xffec (31, 63, 12) and the gap colour 0x001f (0, 0, 31) |
| Walls.Init | wall.c:10-15 | both angles are stored verbatim and the radius is 63 |
| Walls.GapWithinRing | wall.c:17-27 | the gap arc only ever repaints pixels of the ring |
| Walls.Draw | wall.c:17-27 | arc pixels end in the gap colour, the other ring pixels in the wall colour, every other pixel is unchanged, and the gap colour stays selected; with equal angles it is the ring in the wall colour alone |
| Players.PlayerColorValue | player.h:20 | the player colour is 0x07a0 (0, 61, 0) |
| Players.DrawCenter | player.c:24 | the drawn centre is the position truncated toward zero, within one pixel of it in each axis |
| Players.PlayerPixelsNearCenter | player.c:24-25 | every player pixel is within radius 3 of the drawn centre |
| Players.Player.constructor | player.c:10-12 | the position is the given one |
| Players.Player.Move | player.c:14-17 | the position becomes the componentwise sum with the movement |
| Players.Player.Draw | player.c:19-26 | the player colour is selected, and the disc of radius 3 at the truncated centre is painted when it fits or nothing changes otherwise; the position is untouched |
| Game.NextPeriod | main.c:135-140 | the period never rises, and it stays unchanged exactly when it is already at or below 15152 |
| Game.NextCount | main.c:140-148 | the count never rises, and a count at most the old period ends at most the new period |
| Game.LadderClosed | main.c:135-140 | a ramp step keeps the period on the ladder 15152 + 2000k within [15152, 49152], one rung down unless already at the minimum |
| Game.CountStaysBelowPeriod | main.c:140-148 | a count at most the old period ends at most the new one and never below zero |
| Game.RampedFromMax | main.c:135-140 | from 49152, k despawns give max(49152 - 2000k, 15152), always on the ladder |
| Game.Timer.constructor | hardwareConfig.c:52-56 | the period starts at 49152 (`configureTimer`); the count starts at 0, set by `resetTimer` (hardwareConfig.h:46-49) at main.c:76 |
| Game.Timer.RampDifficulty | main.c:135-152 | the period and count follow the ramp and the timer stays valid |
| Game.Timer.ResetPeriod | main.c:224 | after a lost game the period is back at 49152 |
| Game.LiveShrinkSlots | main.c:175-184 | shrinking the live slots in place shrinks every wall of the queue |
| Game.ShrinkKeepsBound | main.c:179 | shrinking keeps every radius within 63 and strictly lowers each one |
| Game.ShrinkAndDraw | main.c:175-184 | each of the numItems live walls, from tail to head, has its radius lowered by 1 and is drawn in that order; slots outside the live range are unchanged |
| Game.ShrinkAndDrawNext | main.c:178-183 | one turn of the shrink pass: the wall in the current slot shrinks by the wall speed, is drawn over the frame so far, and the next slot follows |
| Game.ShrinkSlot | main.c:179 | the current slot's radius drops by the wall speed, so the slots shrunk so far grow by one, and no other slot changes |
| Game.DrawNext | main.c:181 | drawing the current wall extends the frame to the walls so far plus this one, and leaves the gap colour selected |
| Game.DrawScene | main.c:170-184 | the queue becomes every wall shrunk; the framebuffer is the boundary drawn over the old one, then each shrunk wall drawn in queue order; the gap colour stays selected |
| Game.CheckTailCollision | main.c:111-154 | only the tail wall is tested, and only when there is one; a wall hit adds the normal vector; a gap hit removes exactly the tail and ramps the timer; otherwise the timer is unchanged |
| Game.CheckLose | main.c:186-196 | the game is lost exactly when there is a tail wall with radius at most 5; then the buffer is emptied, otherwise it is untouched |
| Game.AfterCollisionKeepsBound | main.c:125-127 | removing the tail keeps the radius bound and never lengthens the queue |
| Game.MoveStep | main.c:111-168 | the tail collision, then the boundary collision, then the move by the resulting vector |
| Game.DrawStep | main.c:171-202 | boundary and walls drawn while the walls close in, then the lose check; a frame that is not lost sends the boundary, the walls and the player drawn in that order, clears the framebuffer and leaves the player colour selected; a lost frame sends nothing, keeps the boundary and shrunk walls drawn over the old framebuffer, and leaves the gap colour selected |
| Game.Frame | main.c:111-202 | one frame: the queue after despawn and shrink, lost exactly when the tail is caught, the player's new position, the timer ramp on a gap hit only, the bytes sent, and the framebuffer and foreground colour left behind in both the lost and the continuing case |
| UartLogger.Pow10Monotone | uartLogger.c:32 | powers of ten grow with the exponent |
| UartLogger.Digits | uartLogger.c:35-39 | the decimal digits, at least one, all of them digit characters |
| UartLogger.DigitCountBounds | uartLogger.c:32 | a positive n with d digits has `10^(d-1) <= n < 10^d`, so d is `(int)log10(n) + 1` |
| UartLogger.DigitCountAtMost | uartLogger.c:32 | n has at most k digits exactly when n is below 10^k |
| UartLogger.Render | uartLogger.c:14-42 | the text holds at least one character and no terminator |
| UartLogger.ParseDigitsOfDigits | uartLogger.c:35-39 | reading back the digits gives the number |
| UartLogger.RenderRoundTrip | uartLogger.c:14-42 | reading back the rendered text, signed, gives the number |
| UartLogger.RenderFitsNumString | uartLogger.c:62-63 | the text and its terminator fit in 6 characters exactly for -9999 to 99999 |
| UartLogger.NumToString | uartLogger.c:14-42 | for num above INT32_MIN: "0" for zero, '-' then the digits of abs(num) for negatives, the terminator at index digitCount + neg, the rest of the array unchanged |
| UartLogger.WriteDigits | uartLogger.c:32-39 | the loop stores exactly the decimal digits, most significant first, in positions neg to neg + digitCount - 1, and touches nothing else |
| UartLogger.WriteTerminatedDigits | uartLogger.c:31-41 | after the sign, the array holds the digits of the number from position neg on, then the terminator, and is otherwise unchanged |
| UartLogger.SendBytes | uartLogger.c:44-50 | the first `length` bytes go out in order |
| UartLogger.SendString | uartLogger.c:52-58 | what goes out is the run before the first terminator, with no terminator in it |
| UartLogger.SendNumSigned | uartLogger.c:60-65 | within -9999 to 99999, what goes out is the rendered number, and it reads back as the number |

## Left out

- The SPI traffic is left out: `LCD_init`, `LCD_sendByte` and the register
  writes inside `LCD_writeCommand`/`LCD_writeData`. The two writes are
  modelled only as entries appended to the `log` of bytes.
- The general-slope branch of `drawLine` (lcdDriver.c:260-291) is left out.
  It steps with a `float` error term.
- `LcdDriver.Lcd.DrawLine` requires an axis-aligned line (`x0 == x1 || y0 == y1`),
  because the general-slope branch is out of the model.
- Square root, cosine, sine and two-argument arctangent are not computed.
  They are uninterpreted functions in `MathLib`. Rounding of `double` is not
  modelled.
- The `(int16_t)` casts are not modelled:
  - the wall radius and the cast arc and gap end points are unbounded
    integers;
  - the truncation toward zero is modelled (`RealMath.Trunc`), the 16-bit
    wrap-around is not.
- `LcdDriver.Lcd.DrawArc` requires the circle's bounding box on screen,
  equal angles, or a negative radius. `drawArc` checks neither centre nor
  radius.
- `Game.Separate`: the framebuffer and the wall array must be different
  arrays. They are separate globals in C.
- Interrupt handlers are left out:
  - myISR.c is not part of this model;
  - wall spawning from the timer interrupt is absent, so a frame never sees
    a wall appear;
  - the ADC readings are absent.
- The movement vector is a parameter of `Game.Frame`. The code that computes
  it from the accelerometer (main.c:98-107) is not modelled.
- The `volatile` sharing of the wall buffer between the interrupt and the
  main loop is concurrency. Every buffer operation is modelled sequentially.
- Enabling and disabling interrupts around the timer update is left out.
- `malloc` failure in `WallBuffer_init` is not modelled.
- `WallBuffers.WallBuffer.Destroy`: the freed `NULL` array is modelled as an
  empty array.
- `WallBuffers.WallBuffer.RemoveWall` always returns the removed wall. A
  caller that passes a `NULL` out-pointer simply ignores it.
- A wall is a value datatype stored in the array's slots. Pointers into the
  buffer are slot indices, and `iter` in the shrink loop is such an index.
- The main-loop plumbing is left out: the title and game-over screens, the
  button waits, `srand`, the timing-debug timer and the debug `sendString`
  calls.
- hardwareConfig.c is modelled only for the initial timer period.
- bitmaps.h is not part of this model.
- `UartLogger.NumToString` requires `num > INT32_MIN`. Negating INT32_MIN
  overflows in C.
- `UartLogger.SendNumSigned` requires -9999 to 99999. Outside that range
  `numToString` writes past the six-character `numStr`.
- `UART_Logger_sendByte` is not modelled. The send routines return the
  characters or bytes that would go out.
- `LcdShapes.ArcWindow`: its contract holds only for end points within the
  radius. `LcdDriver.ArcWindowFor` supplies that bound only under a sound
  `MathLib` (cos and sin within [-1, 1]) and a non-negative radius.
- `Vectors.Direction` has no contract of its own: it is `atan2` of the
  math library, which is uninterpreted. `Collision.NormalVector` and
  `Vectors.WithDirection` state what the angle is used for.

## Findings

| source | as written | input that shows it | evidently intended | confidence | as-written member | corrected member |
|---|---|---|---|---|---|---|
| lcdDriver.c:243-244 | the bounds guard of `drawLine` tests `y0 < 0 && y0 >= LCD_SCREEN_HEIGHT` (and likewise for y1), which no y satisfies, so only x is checked | `drawLine(0, -5, 0, 10)`: the guard passes and the vertical sweep reaches (0, -5), off screen | `y0 < 0 \|\| y0 >= LCD_SCREEN_HEIGHT`, rejecting any off-screen y | not executed | LcdShapes.LineGuardAsWrittenAdmitsOffScreenWrite | LcdShapes.LineGuardProtectsSweep |
