/**
 * One frame of the game loop of main.c: collision handling against the
 * innermost wall, despawning and the difficulty ramp, the boundary wall,
 * moving the player, shrinking and drawing every wall, the lose check, and
 * drawing and sending the frame.
 */
module Game {
  import opened Wrappers
  import opened RealMath
  import opened Vectors
  import opened LcdShapes
  import opened LcdDriver
  import opened Walls
  import opened WallBuffers
  import opened Players
  import opened Collision

  // ---------------------------------------------------------------------
  // The spawn timer and the difficulty ramp

  /** The spawn period after one despawn: lowered by the decrement while it
      is above the minimum. */
  function NextPeriod(period: int): (next: int)
    ensures next <= period
    ensures next == period <==> period <= WallSpawnPeriodMin
  {
    if period > WallSpawnPeriodMin then period - WallSpawnPeriodDecrement else period
  }

  /** The timer count after one despawn: when the period was lowered and
      the count now lies above it, the count is lowered by the decrement. */
  function NextCount(period: int, count: int): (next: int)
    ensures next <= count
    ensures count <= period ==> next <= NextPeriod(period)
  {
    if period > WallSpawnPeriodMin && count > NextPeriod(period)
    then count - WallSpawnPeriodDecrement
    else count
  }

  /** The periods reachable from the maximum: the rungs of the ladder from
      the minimum to the maximum in steps of the decrement. */
  predicate OnLadder(period: int) {
    && WallSpawnPeriodMin <= period <= WallSpawnPeriodMax
    && (period - WallSpawnPeriodMin) % WallSpawnPeriodDecrement == 0
  }

  /** A ramp step stays on the ladder and moves one rung down unless the
      period is already the minimum. */
  lemma LadderClosed(period: int)
    requires OnLadder(period)
    ensures OnLadder(NextPeriod(period))
    ensures period > WallSpawnPeriodMin ==> NextPeriod(period) == period - WallSpawnPeriodDecrement
    ensures period == WallSpawnPeriodMin ==> NextPeriod(period) == period
  {
    if period > WallSpawnPeriodMin {
      var k := (period - WallSpawnPeriodMin) / WallSpawnPeriodDecrement;
      assert period - WallSpawnPeriodMin == WallSpawnPeriodDecrement * k;
      assert k >= 1;
      assert NextPeriod(period) - WallSpawnPeriodMin == WallSpawnPeriodDecrement * (k - 1);
    }
  }

  /** A count that was at most the old period ends at most the new period,
      and never goes below zero. */
  lemma CountStaysBelowPeriod(period: int, count: int)
    requires OnLadder(period) && 0 <= count <= period
    ensures 0 <= NextCount(period, count) <= NextPeriod(period)
  {
  }

  /** The period after k despawns. */
  function Ramped(period: int, k: nat): int {
    if k == 0 then period else NextPeriod(Ramped(period, k - 1))
  }

  /** From the maximum, k despawns lower the period by k decrements, down
      to the minimum and no further. */
  lemma {:induction false} RampedFromMax(k: nat)
    ensures var lowered := WallSpawnPeriodMax - WallSpawnPeriodDecrement * k;
      Ramped(WallSpawnPeriodMax, k) == (if lowered > WallSpawnPeriodMin then lowered else WallSpawnPeriodMin)
    ensures OnLadder(Ramped(WallSpawnPeriodMax, k))
  {
    if k > 0 {
      RampedFromMax(k - 1);
      LadderClosed(Ramped(WallSpawnPeriodMax, k - 1));
    }
  }

  /** TIMER_A0 in up mode: `period` is CCR[0] and `count` is R, which
      counts from 0 up to the period. */
  class Timer {
    var period: int
    var count: int

    predicate Valid()
      reads this
    {
      OnLadder(period) && 0 <= count <= period
    }

    /** configureTimer: the period starts at the maximum. */
    constructor()
      ensures Valid() && period == WallSpawnPeriodMax && count == 0
    {
      period := WallSpawnPeriodMax;
      count := 0;
    }

    /** The difficulty ramp after a despawn. */
    method RampDifficulty()
      requires Valid()
      modifies this
      ensures Valid()
      ensures period == NextPeriod(old(period))
      ensures count == NextCount(old(period), old(count))
    {
      LadderClosed(period);
      CountStaysBelowPeriod(period, count);
      if period > WallSpawnPeriodMin {
        period := period - WallSpawnPeriodDecrement;
        if count > period {
          count := count - WallSpawnPeriodDecrement;
        }
      }
    }

    /** After a lost game the period goes back to the maximum. */
    method ResetPeriod()
      requires Valid()
      modifies this`period
      ensures Valid() && period == WallSpawnPeriodMax
    {
      period := WallSpawnPeriodMax;
    }
  }

  // ---------------------------------------------------------------------
  // Walls closing in

  /** A wall one frame later. */
  function Shrink(w: Wall): Wall {
    w.(radius := w.radius - WallSpeed)
  }

  function ShrinkAll(ws: seq<Wall>): (r: seq<Wall>)
    ensures |r| == |ws|
  {
    seq(|ws|, k requires 0 <= k < |ws| => Shrink(ws[k]))
  }

  /** No queued wall is larger than a freshly spawned one. */
  predicate WithinInitialRadius(ws: seq<Wall>) {
    forall k :: 0 <= k < |ws| ==> ws[k].radius <= WallInitialRadius
  }

  /** How many slots forward from `start` slot `j` is. */
  function StepsFrom(start: nat, j: nat, size: nat): (k: nat)
    requires start < size && j < size
    ensures k < size && Slot(start, k, size) == j
  {
    if j >= start then j - start else j + size - start
  }

  /** Counting k steps forward from `start` and back gives k again. */
  lemma StepsFromSlot(start: nat, k: nat, size: nat)
    requires start < size && k < size
    ensures StepsFrom(start, Slot(start, k, size), size) == k
  {
  }

  /** The array after the first `count` walls from slot `start` have shrunk. */
  function ShrinkSlots(s: seq<Wall>, start: nat, count: nat): (r: seq<Wall>)
    requires start < |s| || |s| == 0
    ensures |r| == |s|
  {
    seq(|s|, j requires 0 <= j < |s| =>
      if StepsFrom(start, j, |s|) < count then Shrink(s[j]) else s[j])
  }

  /** Shrinking one more slot. */
  lemma ShrinkSlotsStep(s: seq<Wall>, start: nat, i: nat)
    requires start < |s| && i < |s|
    ensures ShrinkSlots(s, start, i)[Slot(start, i, |s|)] == s[Slot(start, i, |s|)]
    ensures ShrinkSlots(s, start, i)[Slot(start, i, |s|) := Shrink(s[Slot(start, i, |s|)])]
         == ShrinkSlots(s, start, i + 1)
  {
    var j0 := Slot(start, i, |s|);
    StepsFromSlot(start, i, |s|);
    var a := ShrinkSlots(s, start, i)[j0 := Shrink(s[j0])];
    var b := ShrinkSlots(s, start, i + 1);
    forall j | 0 <= j < |s|
      ensures a[j] == b[j]
    {
      if j != j0 {
        assert Slot(start, StepsFrom(start, j, |s|), |s|) == j;
      }
    }
  }

  /** Shrinking the live slots shrinks every queued wall. */
  lemma LiveShrinkSlots(s: seq<Wall>, start: nat, n: nat)
    requires n <= |s| && start < |s|
    ensures Live(ShrinkSlots(s, start, n), start, n) == ShrinkAll(Live(s, start, n))
  {
    var a, b := Live(ShrinkSlots(s, start, n), start, n), ShrinkAll(Live(s, start, n));
    forall k | 0 <= k < n
      ensures a[k] == b[k]
    {
      if k < |s| {
        StepsFromSlot(start, k, |s|);
      }
    }
  }

  /** The framebuffer after drawing the walls in order over `before`. */
  function DrawAll(before: seq<bv16>, m: MathLib, ws: seq<Wall>): (after: seq<bv16>)
    requires |before| == PixelCount
    ensures |after| == PixelCount
  {
    if |ws| == 0 then before
    else Drawn(DrawAll(before, m, ws[..|ws| - 1]), m, ws[|ws| - 1])
  }

  /** The wall array and the framebuffer are separate allocations.  (The
      verifier cannot tell an array of walls from an array of bit-vectors
      by type alone.) */
  predicate Separate(b: WallBuffer, lcd: Lcd)
    reads b
  {
    (b.buffer as object) != (lcd.pixelBuffer as object)
  }

  /**
   * The shrink pass: walks the queue from the tail, shrinking each wall by
   * the wall speed and drawing it.  Slots outside the queue are unchanged.
   */
  method ShrinkAndDraw(b: WallBuffer, lcd: Lcd, m: MathLib)
    requires b.Valid() && lcd.Valid() && Separate(b, lcd) && WithinInitialRadius(b.Contents())
    modifies b.buffer, lcd`foregroundColor, lcd.pixelBuffer
    ensures b.Valid()
    ensures b.buffer[..] == ShrinkSlots(old(b.buffer[..]), b.tail, b.numItems)
    ensures b.Contents() == ShrinkAll(old(b.Contents()))
    ensures lcd.pixelBuffer[..] == DrawAll(old(lcd.pixelBuffer[..]), m, b.Contents())
    ensures b.numItems > 0 ==> lcd.foregroundColor == WallGapColor
    ensures b.numItems == 0 ==> lcd.foregroundColor == old(lcd.foregroundColor)
  {
    ghost var s0 := b.buffer[..];
    ghost var live := Live(s0, b.tail, b.numItems);
    ghost var walls := ShrinkAll(live);
    assert WithinInitialRadius(live);
    if b.bufferSize == 0 {
      assert b.buffer[..] == ShrinkSlots(s0, b.tail, b.numItems);
      assert walls == [];
      return;
    }
    var iter := b.tail;
    var i := 0;
    while i < b.numItems
      invariant 0 <= i <= b.numItems
      invariant iter == Slot(b.tail, i, b.bufferSize)
      invariant b.buffer[..] == ShrinkSlots(s0, b.tail, i)
      invariant lcd.pixelBuffer[..] == DrawAll(old(lcd.pixelBuffer[..]), m, walls[..i])
      invariant i > 0 ==> lcd.foregroundColor == WallGapColor
      invariant i == 0 ==> lcd.foregroundColor == old(lcd.foregroundColor)
    {
      iter := ShrinkAndDrawNext(b, lcd, m, iter, i, s0, walls, old(lcd.pixelBuffer[..]));
      i := i + 1;
    }
    LiveShrinkSlots(s0, b.tail, b.numItems);
    assert walls[..i] == walls;
  }

  /** One turn of the shrink pass: the i-th wall of the queue, in slot
      `iter`, shrinks and is drawn, and the next slot is returned. */
  method ShrinkAndDrawNext(b: WallBuffer, lcd: Lcd, m: MathLib, iter: nat, i: nat,
                           ghost s0: seq<Wall>, ghost walls: seq<Wall>, ghost p0: seq<bv16>)
    returns (next: nat)
    requires b.Valid() && lcd.Valid() && Separate(b, lcd) && b.bufferSize > 0 && |p0| == PixelCount
    requires |s0| == b.bufferSize && i < b.numItems && iter == Slot(b.tail, i, b.bufferSize)
    requires walls == ShrinkAll(Live(s0, b.tail, b.numItems)) && WithinInitialRadius(Live(s0, b.tail, b.numItems))
    requires b.buffer[..] == ShrinkSlots(s0, b.tail, i)
    requires lcd.pixelBuffer[..] == DrawAll(p0, m, walls[..i])
    modifies b.buffer, lcd`foregroundColor, lcd.pixelBuffer
    ensures next == Slot(b.tail, i + 1, b.bufferSize)
    ensures b.buffer[..] == ShrinkSlots(s0, b.tail, i + 1)
    ensures lcd.pixelBuffer[..] == DrawAll(p0, m, walls[..i + 1])
    ensures lcd.foregroundColor == WallGapColor
  {
    ghost var live := Live(s0, b.tail, b.numItems);
    assert live[i] == s0[iter];
    assert walls[i] == Shrink(live[i]);
    ShrinkSlot(b, iter, i, s0);
    DrawNext(lcd, m, b.buffer[iter], i, walls, p0);
    AdvanceSlot(b.tail, i, b.bufferSize);
    next := Advance(iter, b.bufferSize);
  }

  /** One step of the shrink pass on the array: the wall in slot `iter`,
      the i-th of the queue, shrinks. */
  method ShrinkSlot(b: WallBuffer, iter: nat, i: nat, ghost s0: seq<Wall>)
    requires b.Valid() && b.bufferSize > 0
    requires i < b.bufferSize && iter == Slot(b.tail, i, b.bufferSize) && |s0| == b.bufferSize
    requires b.buffer[..] == ShrinkSlots(s0, b.tail, i)
    modifies b.buffer
    ensures b.buffer[..] == ShrinkSlots(s0, b.tail, i + 1)
    ensures b.buffer[iter] == Shrink(s0[iter])
  {
    ShrinkSlotsStep(s0, b.tail, i);
    b.buffer[iter] := Shrink(b.buffer[iter]);
  }

  /** One step of the shrink pass on the screen: the i-th wall is drawn. */
  method DrawNext(lcd: Lcd, m: MathLib, w: Wall, i: nat, ghost walls: seq<Wall>, ghost p0: seq<bv16>)
    requires lcd.Valid() && i < |walls| && |p0| == PixelCount
    requires walls[i] == w && w.radius <= WallInitialRadius
    requires lcd.pixelBuffer[..] == DrawAll(p0, m, walls[..i])
    modifies lcd`foregroundColor, lcd.pixelBuffer
    ensures lcd.pixelBuffer[..] == DrawAll(p0, m, walls[..i + 1])
    ensures lcd.foregroundColor == WallGapColor
  {
    Draw(lcd, m, w);
    assert walls[..i + 1][..i] == walls[..i];
  }

  // ---------------------------------------------------------------------
  // Collisions and the lose check

  /** The outer, stationary boundary: a wall with an empty gap. */
  const GameBoundary: Wall := Init(0.0, 0.0)

  /** The collision result for the innermost wall, if there is one; the
      other walls are never tested. */
  function TailCode(m: MathLib, position: Vector2d, walls: seq<Wall>): Option<CollisionCode> {
    if |walls| == 0 then None else Some(Collide(m, position, walls[0]))
  }

  /** A wall hit adds the wall's normal vector to the movement. */
  function TailMovement(m: MathLib, position: Vector2d, code: Option<CollisionCode>, movement: Vector2d): Vector2d {
    if code == Some(WallCollision) then Add(movement, NormalVector(m, position, movement, WallSpeed))
    else movement
  }

  /** A hit on the boundary adds the boundary's normal vector, for a wall
      that does not move. */
  function BoundaryMovement(m: MathLib, position: Vector2d, movement: Vector2d): Vector2d {
    if Collide(m, position, GameBoundary) == WallCollision
    then Add(movement, NormalVector(m, position, movement, 0))
    else movement
  }

  /** The queue after the collision step: a gap hit despawns the tail. */
  function AfterCollision(walls: seq<Wall>, code: Option<CollisionCode>): seq<Wall> {
    if code == Some(GapCollision) && |walls| > 0 then walls[1..] else walls
  }

  /** The player loses when the innermost wall has closed in on it. */
  predicate TailCaught(walls: seq<Wall>) {
    |walls| > 0 && walls[0].radius <= PlayerRadius + 1
  }

  /**
   * Tests the player against the tail wall only.  A wall hit pushes the
   * movement back along the normal; a gap hit removes the tail wall and
   * ramps the difficulty.
   */
  method CheckTailCollision(b: WallBuffer, timer: Timer, m: MathLib, position: Vector2d, movement: Vector2d)
    returns (code: Option<CollisionCode>, next: Vector2d)
    requires b.Valid() && timer.Valid()
    modifies b`numItems, b`tail, timer
    ensures b.Valid() && timer.Valid()
    ensures code == TailCode(m, position, old(b.Contents()))
    ensures next == TailMovement(m, position, code, movement)
    ensures b.Contents() == AfterCollision(old(b.Contents()), code)
    ensures code == Some(GapCollision) ==>
      timer.period == NextPeriod(old(timer.period)) && timer.count == NextCount(old(timer.period), old(timer.count))
    ensures code != Some(GapCollision) ==>
      timer.period == old(timer.period) && timer.count == old(timer.count)
  {
    code, next := None, movement;
    if b.numItems > 0 {
      var w := b.buffer[b.tail];
      var c := Collide(m, position, w);
      code := Some(c);
      if c == WallCollision {
        next := Add(movement, NormalVector(m, position, movement, WallSpeed));
      } else if c == GapCollision {
        var _, _ := b.RemoveWall();
        timer.RampDifficulty();
      }
    }
  }

  /** The lose check: when the tail wall has closed in, the buffer is
      emptied. */
  method CheckLose(b: WallBuffer) returns (lost: bool)
    requires b.Valid()
    modifies b`numItems, b`head, b`tail
    ensures b.Valid()
    ensures lost == TailCaught(old(b.Contents()))
    ensures lost ==> b.numItems == 0 && b.head == 0 && b.tail == 0 && b.Contents() == []
    ensures !lost ==> b.numItems == old(b.numItems) && b.head == old(b.head) && b.tail == old(b.tail)
  {
    lost := b.numItems > 0 && b.buffer[b.tail].radius <= PlayerRadius + 1;
    if lost {
      b.EmptyBuffer();
    }
  }

  /** Shrinking keeps every wall within the initial radius. */
  lemma ShrinkKeepsBound(walls: seq<Wall>)
    requires WithinInitialRadius(walls)
    ensures WithinInitialRadius(ShrinkAll(walls))
    ensures forall k :: 0 <= k < |walls| ==> ShrinkAll(walls)[k].radius < walls[k].radius
  {
  }

  // ---------------------------------------------------------------------
  // The frame

  /** What the frame sends to the screen: the boundary, the shrunk walls
      and the moved player, drawn in that order over `before`. */
  function FramePixels(before: seq<bv16>, m: MathLib, walls: seq<Wall>, position: Vector2d): seq<bv16>
    requires |before| == PixelCount
  {
    PlayerDrawn(DrawAll(Drawn(before, m, GameBoundary), m, walls), position)
  }

  /** A queue that keeps its bound after the collision step. */
  lemma AfterCollisionKeepsBound(walls: seq<Wall>, code: Option<CollisionCode>)
    requires WithinInitialRadius(walls)
    ensures WithinInitialRadius(AfterCollision(walls, code))
    ensures |AfterCollision(walls, code)| <= |walls|
  {
  }

  /**
   * The first half of a frame: the tail collision, the boundary collision
   * and the move of the player.
   */
  method MoveStep(b: WallBuffer, timer: Timer, m: MathLib, player: Player, movement: Vector2d)
    returns (code: Option<CollisionCode>)
    requires b.Valid() && timer.Valid() && WithinInitialRadius(b.Contents())
    modifies b`numItems, b`tail, timer, player
    ensures b.Valid() && timer.Valid() && WithinInitialRadius(b.Contents())
    ensures code == TailCode(m, old(player.position), old(b.Contents()))
    ensures b.Contents() == AfterCollision(old(b.Contents()), code)
    ensures player.position == Add(old(player.position),
      BoundaryMovement(m, old(player.position), TailMovement(m, old(player.position), code, movement)))
    ensures code == Some(GapCollision) ==>
      timer.period == NextPeriod(old(timer.period)) && timer.count == NextCount(old(timer.period), old(timer.count))
    ensures code != Some(GapCollision) ==>
      timer.period == old(timer.period) && timer.count == old(timer.count)
  {
    var position := player.position;
    var next;
    code, next := CheckTailCollision(b, timer, m, position, movement);
    AfterCollisionKeepsBound(old(b.Contents()), code);
    next := BoundaryMovement(m, position, next);
    player.Move(next);
  }

  /** The boundary, then the walls closing in, drawn over the framebuffer. */
  method DrawScene(lcd: Lcd, m: MathLib, b: WallBuffer)
    requires lcd.Valid() && b.Valid() && Separate(b, lcd) && WithinInitialRadius(b.Contents())
    modifies lcd`foregroundColor, lcd.pixelBuffer, b.buffer
    ensures b.Valid() && WithinInitialRadius(b.Contents())
    ensures b.Contents() == ShrinkAll(old(b.Contents()))
    ensures lcd.pixelBuffer[..] == DrawAll(Drawn(old(lcd.pixelBuffer[..]), m, GameBoundary), m, b.Contents())
    ensures lcd.foregroundColor == WallGapColor
  {
    Draw(lcd, m, GameBoundary);
    ShrinkAndDraw(b, lcd, m);
    ShrinkKeepsBound(old(b.Contents()));
  }

  /**
   * The second half of a frame: the boundary and the walls are drawn while
   * the walls close in, then the lose check; a frame that is not lost draws
   * the player and is sent, clearing the framebuffer.  A lost frame is not
   * sent, so the boundary and the shrunk walls stay in the framebuffer and
   * the next game draws over them.
   */
  method DrawStep(lcd: Lcd, m: MathLib, b: WallBuffer, player: Player) returns (lost: bool)
    requires lcd.Valid() && b.Valid() && Separate(b, lcd) && WithinInitialRadius(b.Contents())
    modifies lcd`foregroundColor, lcd`log, lcd.pixelBuffer, b`numItems, b`head, b`tail, b.buffer
    ensures b.Valid() && WithinInitialRadius(b.Contents())
    ensures var shrunk := ShrinkAll(old(b.Contents()));
      lost == TailCaught(shrunk) && b.Contents() == (if lost then [] else shrunk)
    ensures lost ==> lcd.log == old(lcd.log)
    ensures lost ==> lcd.foregroundColor == WallGapColor
    ensures lost ==> (lcd.pixelBuffer[..] ==
      DrawAll(Drawn(old(lcd.pixelBuffer[..]), m, GameBoundary), m, ShrinkAll(old(b.Contents()))))
    ensures !lost ==> lcd.log == old(lcd.log) + [Command(LcdCmdRamWrite)]
                                 + FrameData(FramePixels(old(lcd.pixelBuffer[..]), m, b.Contents(), player.position))
    ensures !lost ==> forall i :: 0 <= i < PixelCount ==> lcd.pixelBuffer[i] == lcd.backgroundColor
    ensures !lost ==> lcd.foregroundColor == PlayerColor
  {
    ghost var p0 := lcd.pixelBuffer[..];
    DrawScene(lcd, m, b);
    lost := CheckLose(b);
    if lost {
      return;
    }
    player.Draw(lcd);
    assert lcd.pixelBuffer[..] == FramePixels(p0, m, b.Contents(), player.position);
    lcd.SendAndClearBuffer();
  }

  /**
   * One pass of the game loop, given the movement vector read from the
   * accelerometer.  Returns whether the player lost; then the buffer is
   * empty and the frame is not sent, its drawing left in the framebuffer.
   * Otherwise the frame is sent and the framebuffer cleared.
   */
  method Frame(lcd: Lcd, m: MathLib, b: WallBuffer, timer: Timer, player: Player, movement: Vector2d)
    returns (lost: bool)
    requires lcd.Valid() && b.Valid() && timer.Valid() && Separate(b, lcd)
    requires WithinInitialRadius(b.Contents())
    modifies lcd`foregroundColor, lcd`log, lcd.pixelBuffer, b`numItems, b`head, b`tail, b.buffer
    modifies timer, player
    ensures b.Valid() && timer.Valid() && WithinInitialRadius(b.Contents())
    ensures var code := TailCode(m, old(player.position), old(b.Contents()));
      var shrunk := ShrinkAll(AfterCollision(old(b.Contents()), code));
      && lost == TailCaught(shrunk)
      && b.Contents() == (if lost then [] else shrunk)
      && player.position == Add(old(player.position),
           BoundaryMovement(m, old(player.position), TailMovement(m, old(player.position), code, movement)))
      && (code == Some(GapCollision) ==>
            timer.period == NextPeriod(old(timer.period))
            && timer.count == NextCount(old(timer.period), old(timer.count)))
      && (code != Some(GapCollision) ==>
            timer.period == old(timer.period) && timer.count == old(timer.count))
    ensures lost ==> lcd.log == old(lcd.log)
    ensures lost ==> lcd.foregroundColor == WallGapColor
    ensures lost ==> (lcd.pixelBuffer[..] ==
      DrawAll(Drawn(old(lcd.pixelBuffer[..]), m, GameBoundary), m,
              ShrinkAll(AfterCollision(old(b.Contents()), TailCode(m, old(player.position), old(b.Contents()))))))
    ensures !lost ==> lcd.log == old(lcd.log) + [Command(LcdCmdRamWrite)]
                                 + FrameData(FramePixels(old(lcd.pixelBuffer[..]), m, b.Contents(), player.position))
    ensures !lost ==> forall i :: 0 <= i < PixelCount ==> lcd.pixelBuffer[i] == lcd.backgroundColor
    ensures !lost ==> lcd.foregroundColor == PlayerColor
  {
    var _ := MoveStep(b, timer, m, player, movement);
    lost := DrawStep(lcd, m, b, player);
  }
}
