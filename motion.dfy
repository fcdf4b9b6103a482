/**
 * The flight of the shot bubble: one frame of `Bubble.update` (move, bounce
 * off a side wall) and the time-slow wrapper of `Game.update` that scales
 * the velocity for the frame and then puts it back.
 */
module Motion {
  import opened HexGrid

  /** The bubble in flight: centre, velocity, colour and rainbow flag. */
  datatype Shot = Shot(x: real, y: real, vx: real, vy: real, colour: Colour, rainbow: bool)

  const ShooterX := 400   // WIDTH // 2
  const ShooterY := 550   // SHOOTER_Y = HEIGHT - 50

  const LeftStop: real := Radius as real
  const RightStop: real := (Width - Radius) as real

  /** The moved centre touches or passes a side wall. */
  predicate HitsWall(x: real) {
    x - Radius as real <= 0.0 || x + Radius as real >= Width as real
  }

  /** Where a move to x leaves the centre: x itself, or the stop of the wall it touches. */
  function WallStop(x: real): real {
    if !HitsWall(x) then x else if x - Radius as real <= 0.0 then LeftStop else RightStop
  }

  /**
   * `Bubble.update`: the centre moves by the velocity; if it then touches a
   * wall, vx is reversed and the centre is put back at one radius from that
   * wall.  Either way the centre ends up between the two stops.
   */
  function Move(s: Shot): (t: Shot)
    ensures t.y == s.y + s.vy && t.vy == s.vy && t.colour == s.colour && t.rainbow == s.rainbow
    ensures LeftStop <= t.x <= RightStop
    ensures HitsWall(s.x + s.vx) ==> t.vx == -s.vx && (t.x == LeftStop || t.x == RightStop)
    ensures t.x == WallStop(s.x + s.vx)
    ensures !HitsWall(s.x + s.vx) ==> t.vx == s.vx && t.x == s.x + s.vx
  {
    var x := s.x + s.vx;
    if HitsWall(x) then
      s.(x := if x - Radius as real <= 0.0 then LeftStop else RightStop, y := s.y + s.vy, vx := -s.vx)
    else
      s.(x := x, y := s.y + s.vy)
  }

  /**
   * The frame of `Game.update` as written: the velocity is scaled by the
   * time factor, the bubble moves, and then the velocity saved before the
   * move is written back, which also undoes any reversal made by the bounce.
   */
  function AdvanceAsWritten(s: Shot, factor: real): (t: Shot)
    ensures t.vx == s.vx && t.vy == s.vy && t.colour == s.colour && t.rainbow == s.rainbow
    ensures t.y == s.y + s.vy * factor
    ensures t.x == WallStop(s.x + s.vx * factor)
    ensures LeftStop <= t.x <= RightStop
  {
    var m := Move(s.(vx := s.vx * factor, vy := s.vy * factor));
    m.(vx := s.vx, vy := s.vy)
  }

  /**
   * As written, a shot that reaches the left wall keeps heading into it:
   * every later frame puts it back at the left stop, so it slides up the
   * wall and never bounces.
   */
  lemma BounceLost(s: Shot, factor: real)
    requires 0.0 < factor && s.x == LeftStop && s.vx < 0.0
    ensures AdvanceAsWritten(s, factor).x == LeftStop
    ensures AdvanceAsWritten(s, factor).vx < 0.0
    ensures AdvanceAsWritten(AdvanceAsWritten(s, factor), factor).x == LeftStop
  {
    assert s.vx * factor < 0.0;
    var t := AdvanceAsWritten(s, factor);
    assert t.vx * factor < 0.0;
  }

  /**
   * The frame as evidently intended: the time factor applies to this
   * frame's movement only, the bounce is kept.
   */
  function Advance(s: Shot, factor: real): (t: Shot)
    ensures t.vy == s.vy && t.colour == s.colour && t.rainbow == s.rainbow
    ensures t.y == s.y + s.vy * factor
    ensures t.x == WallStop(s.x + s.vx * factor)
    ensures LeftStop <= t.x <= RightStop
    ensures t.vx == if HitsWall(s.x + s.vx * factor) then -s.vx else s.vx
  {
    var m := Move(s.(vx := s.vx * factor, vy := s.vy * factor));
    m.(vx := if HitsWall(s.x + s.vx * factor) then -s.vx else s.vx, vy := s.vy)
  }

  /**
   * With a positive time factor, a shot that starts between the stops and
   * touches a wall leaves it heading away from that wall.
   */
  lemma AdvanceBounces(s: Shot, factor: real)
    requires 0.0 < factor && LeftStop <= s.x <= RightStop
    ensures var t := Advance(s, factor);
      (t.x == LeftStop && HitsWall(s.x + s.vx * factor) ==> t.vx >= 0.0) &&
      (t.x == RightStop && HitsWall(s.x + s.vx * factor) ==> t.vx <= 0.0)
  {
    var x := s.x + s.vx * factor;
    if x - Radius as real <= 0.0 {
      assert s.vx * factor <= 0.0;
    } else if x + Radius as real >= Width as real {
      assert s.vx * factor >= 0.0;
    }
  }
}
