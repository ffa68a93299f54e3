/**
 * One frame of player movement and the collision push-back, as functions on a
 * player pose. The class in PlayerState performs the same updates in place.
 */
module Movement {
  import opened Grid

  /** The flag kept for the collision check: 'f', 'fs' or 'b'. */
  datatype Direction = Forward | ForwardFast | Backward

  /**
   * The keys held this frame, as intents: turnLeft is LEFT or A, turnRight is
   * RIGHT or D, forward is UP or W, fast is either SHIFT, backward is DOWN or S.
   */
  datatype Intent = Intent(turnLeft: bool, turnRight: bool, forward: bool, fast: bool, backward: bool)

  /** Position, heading and the last movement flag. */
  datatype Pose = Pose(x: real, y: real, angle: real, direction: Direction)

  /** Heading change per frame for a turn key. */
  const TURN: real := 0.1
  /** Distance per frame for forward and for backward. */
  const SPEED: real := 1.5
  /** Extra forward distance per frame while shift is held. */
  const FAST_EXTRA: real := 1.0

  /**
   * The net distance a frame moves along (-sin a, cos a): forward 1.5, plus 1.0
   * with shift, minus 1.5 backward. Shift alone does not move the player, and with
   * both keys held only the shift's extra step is left.
   */
  function Travel(i: Intent): (t: real)
    ensures !i.forward && !i.backward ==> t == 0.0
    ensures i.forward && !i.backward ==> t == (if i.fast then 2.5 else 1.5)
    ensures !i.forward && i.backward ==> t == -1.5
    ensures i.forward && i.backward ==> t == (if i.fast then 1.0 else 0.0)
  {
    (if i.forward then SPEED else 0.0) + (if i.forward && i.fast then FAST_EXTRA else 0.0) - (if i.backward then SPEED else 0.0)
  }

  /**
   * `update_player_pos`, step by step: turn left, turn right, move forward (and
   * further with shift), move backward. The moves use the heading after turning;
   * backward is applied last, so its flag wins.
   */
  function Move(p: Pose, i: Intent, sin: real -> real, cos: real -> real): (q: Pose)
    ensures q.angle == p.angle - (if i.turnLeft then TURN else 0.0) + (if i.turnRight then TURN else 0.0)
    ensures q.x == p.x + Travel(i) * -sin(q.angle) && q.y == p.y + Travel(i) * cos(q.angle)
    ensures i.backward ==> q.direction == Backward
    ensures !i.backward && i.forward ==> q.direction == (if i.fast then ForwardFast else Forward)
    ensures !i.forward && !i.backward ==> q.x == p.x && q.y == p.y && q.direction == p.direction
  {
    var a := if i.turnLeft then p.angle - TURN else p.angle;
    var a := if i.turnRight then a + TURN else a;
    var f := if i.forward then Pose(p.x + -sin(a) * SPEED, p.y + cos(a) * SPEED, a, Forward) else p.(angle := a);
    var f := if i.forward && i.fast then Pose(f.x + -sin(a), f.y + cos(a), a, ForwardFast) else f;
    if i.backward then Pose(f.x - -sin(a) * SPEED, f.y - cos(a) * SPEED, a, Backward) else f
  }

  /**
   * How far `check_collision` moves the player along (-sin a, cos a) for each
   * flag: back 3, back 5, or forward 3, i.e. twice the step that set the flag,
   * reversed.
   */
  function Push(d: Direction): (r: real)
    ensures d == Forward ==> r == -2.0 * SPEED
    ensures d == ForwardFast ==> r == -2.0 * (SPEED + FAST_EXTRA)
    ensures d == Backward ==> r == 2.0 * SPEED
    ensures r > 0.0 <==> d == Backward
  {
    match d
    case Forward => -3.0
    case ForwardFast => -5.0
    case Backward => 3.0
  }

  /**
   * `check_collision`: when the cell under the player is a wall, one push along
   * the heading chosen by the flag; the pushed position is not checked again.
   * None when the lookup raises IndexError.
   */
  function Collide(wallAt: Point -> Option<bool>, p: Pose, sin: real -> real, cos: real -> real): (r: Option<Pose>)
    ensures r.Some? <==> wallAt(Point(p.x, p.y)).Some?
    ensures r.Some? ==> r.value.angle == p.angle && r.value.direction == p.direction
    ensures wallAt(Point(p.x, p.y)) == Some(false) ==> r == Some(p)
    ensures wallAt(Point(p.x, p.y)) == Some(true) ==>
      r.value.x == p.x + Push(p.direction) * -sin(p.angle) && r.value.y == p.y + Push(p.direction) * cos(p.angle)
  {
    match wallAt(Point(p.x, p.y))
    case None => None
    case Some(false) => Some(p)
    case Some(true) =>
      if p.direction == Forward then
        Some(p.(x := p.x - -sin(p.angle) * 3.0, y := p.y - cos(p.angle) * 3.0))
      else if p.direction == ForwardFast then
        Some(p.(x := p.x - -sin(p.angle) * 5.0, y := p.y - cos(p.angle) * 5.0))
      else
        Some(p.(x := p.x + -sin(p.angle) * 3.0, y := p.y + cos(p.angle) * 3.0))
  }

  /**
   * When a frame moves only forward or only backward and lands in a wall, the
   * push-back reverses the move and carries the player as far past the starting
   * point as the move went: the corrected position mirrors the moved one about it.
   */
  lemma PushBackMirrorsMove(wallAt: Point -> Option<bool>, p: Pose, i: Intent, sin: real -> real, cos: real -> real)
    requires i.forward != i.backward
    requires wallAt(Point(Move(p, i, sin, cos).x, Move(p, i, sin, cos).y)) == Some(true)
    ensures Collide(wallAt, Move(p, i, sin, cos), sin, cos).Some?
    ensures Collide(wallAt, Move(p, i, sin, cos), sin, cos).value.x == 2.0 * p.x - Move(p, i, sin, cos).x
    ensures Collide(wallAt, Move(p, i, sin, cos), sin, cos).value.y == 2.0 * p.y - Move(p, i, sin, cos).y
  {
  }

  /**
   * With forward and backward both held, the flag is 'b' although the net move is
   * forward (1.0 with shift): a push-back then goes further forward.
   */
  lemma BothKeysPushForward(wallAt: Point -> Option<bool>, p: Pose, i: Intent, sin: real -> real, cos: real -> real)
    requires i.forward && i.backward && i.fast
    requires wallAt(Point(Move(p, i, sin, cos).x, Move(p, i, sin, cos).y)) == Some(true)
    ensures Collide(wallAt, Move(p, i, sin, cos), sin, cos).Some?
    ensures Collide(wallAt, Move(p, i, sin, cos), sin, cos).value.x - p.x == 4.0 * (Move(p, i, sin, cos).x - p.x)
    ensures Collide(wallAt, Move(p, i, sin, cos), sin, cos).value.y - p.y == 4.0 * (Move(p, i, sin, cos).y - p.y)
  {
  }
}
