/**
 * The player: a small disc at a real-valued position that gravity and the
 * tilt of the board move around (player.h, player.c).
 */
module Players {
  import opened RealMath
  import opened Vectors
  import opened LcdShapes
  import opened LcdDriver

  /** Collision radius of the player. */
  const PlayerRadius: int := 4
  /** Upper bound of the player's speed. */
  const PlayerSpeed: int := 5
  /** The player colour (0, 61, 0). */
  const PlayerColor: bv16 := MakeColor16(0, 61, 0)

  lemma PlayerColorValue()
    ensures PlayerColor == 0x07a0
    ensures Red(PlayerColor) == 0 && Green(PlayerColor) == 61 && Blue(PlayerColor) == 0
  {
  }

  /** The screen pixel the player is drawn around: both coordinates
      converted to integers by truncation toward zero. */
  function DrawCenter(position: Vector2d): (p: Point)
    ensures Abs(position.x - p.0 as real) < 1.0 && Abs(position.y - p.1 as real) < 1.0
  {
    (Trunc(position.x), Trunc(position.y))
  }

  /** The pixels of the drawn player: a disc one pixel smaller than the
      collision radius. */
  function PlayerPixels(position: Vector2d): set<Point> {
    var c := DrawCenter(position);
    DiscPoints(c.0, c.1, PlayerRadius - 1)
  }

  /** The framebuffer after drawing the player at `position` over `before`:
      nothing is drawn when the disc does not fit on the screen. */
  function PlayerDrawn(before: seq<bv16>, position: Vector2d): (after: seq<bv16>)
    requires |before| == PixelCount
    ensures |after| == PixelCount
  {
    var c := DrawCenter(position);
    if CircleFits(c.0, c.1, PlayerRadius - 1) then
      seq(PixelCount, i requires 0 <= i < PixelCount =>
        if PointAt(i) in PlayerPixels(position) then PlayerColor else before[i])
    else before
  }

  /** The drawn disc stays within three pixels of the truncated position. */
  lemma PlayerPixelsNearCenter(position: Vector2d, p: Point)
    requires p in PlayerPixels(position)
    ensures var c := DrawCenter(position);
      c.0 - 3 <= p.0 <= c.0 + 3 && c.1 - 3 <= p.1 <= c.1 + 3
  {
    var c := DrawCenter(position);
    DiscShape(c.0, c.1, PlayerRadius - 1, p);
  }

  class Player {
    var position: Vector2d

    /** Player_init: copies the given position. */
    constructor(position: Vector2d)
      ensures this.position == position
    {
      this.position := position;
    }

    /** Adds the movement vector to the position. */
    method Move(movement: Vector2d)
      modifies this
      ensures position == Add(old(position), movement)
    {
      position := Add(position, movement);
    }

    /**
     * Fills the player's disc in the player colour, which stays selected;
     * a disc that does not fit on the screen is not drawn.  The position
     * is not changed.
     */
    method Draw(lcd: Lcd)
      requires lcd.Valid()
      modifies lcd`foregroundColor, lcd.pixelBuffer
      ensures lcd.foregroundColor == PlayerColor
      ensures var c := DrawCenter(position);
        if CircleFits(c.0, c.1, PlayerRadius - 1) then
          Painted(lcd.pixelBuffer[..], old(lcd.pixelBuffer[..]), PlayerPixels(position), PlayerColor)
        else
          lcd.pixelBuffer[..] == old(lcd.pixelBuffer[..])
      ensures lcd.pixelBuffer[..] == PlayerDrawn(old(lcd.pixelBuffer[..]), position)
    {
      lcd.SetForegroundColor(PlayerColor);
      var c := DrawCenter(position);
      var _ := lcd.FillCircle(c.0, c.1, PlayerRadius - 1);
    }
  }
}
