/**
 * The player's state, which the program keeps in module-level variables and
 * updates in place every frame, as an object: movement, the collision check, and
 * the ray cast from the current position.
 */
module PlayerState {
  import opened Grid
  import opened Projection
  import opened Caster
  import opened Movement

  class Player {
    var x: real
    var y: real
    var angle: real
    var direction: Direction
    /**
     * The wall lookup the player moves and casts against. The constructor sets it
     * to MapWall, i.e. IsWallAt on MAP, and as a const it never changes.
     */
    const wallAt: Point -> Option<bool>

    /** The player's state as a value. */
    function State(): Pose
      reads this
    {
      Pose(x, y, angle, direction)
    }

    /** The start of a session: the centre of the map, heading 0, flag 'f'. */
    constructor ()
      ensures State() == Pose(MAP_SIZE / 2.0, MAP_SIZE / 2.0, 0.0, Forward)
      ensures OnMap(Point(x, y))
      ensures wallAt == MapWall
    {
      wallAt := MapWall;
      x := MAP_SIZE / 2.0;
      y := MAP_SIZE / 2.0;
      angle := 0.0;
      direction := Forward;
    }

    /** One frame of movement for the keys held (`update_player_pos`). */
    method UpdatePos(intent: Intent, sin: real -> real, cos: real -> real)
      modifies this
      ensures State() == Move(old(State()), intent, sin, cos)
    {
      if intent.turnLeft {
        angle := angle - TURN;
      }
      if intent.turnRight {
        angle := angle + TURN;
      }
      ghost var q := Move(old(State()), intent, sin, cos);
      assert angle == q.angle;
      if intent.forward {
        direction := Forward;
        x := x + -sin(angle) * SPEED;
        y := y + cos(angle) * SPEED;
        if intent.fast {
          direction := ForwardFast;
          x := x + -sin(angle);
          y := y + cos(angle);
        }
      }
      if intent.backward {
        direction := Backward;
        x := x - -sin(angle) * SPEED;
        y := y - cos(angle) * SPEED;
      }
    }

    /**
     * The collision check (`check_collision`). Err(IndexError) when the player's
     * cell is off the map; the state is then untouched.
     */
    method CheckCollision(sin: real -> real, cos: real -> real) returns (r: Result<()>)
      modifies this
      ensures r.Ok? <==> Collide(wallAt, old(State()), sin, cos).Some?
      ensures r.Ok? ==> State() == Collide(wallAt, old(State()), sin, cos).value
      ensures r.Err? ==> r.fault == IndexError && State() == old(State())
    {
      var cell := wallAt(Point(x, y));
      if cell.None? {
        return Err(IndexError);
      }
      if cell.value {
        if direction == Forward {
          x := x - -sin(angle) * 3.0;
          y := y - cos(angle) * 3.0;
        } else if direction == ForwardFast {
          x := x - -sin(angle) * 5.0;
          y := y - cos(angle) * 5.0;
        } else {
          x := x + -sin(angle) * 3.0;
          y := y + cos(angle) * 3.0;
        }
      }
      r := Ok(());
    }

    /**
     * The inner loop of `cast_rays`: step the depth up from 0 along angle `a` and
     * stop at the first sample point that is in a wall or off the map.
     */
    method ScanRay(a: real, sin: real -> real, cos: real -> real) returns (s: Scan)
      ensures s == FirstWall(wallAt, Point(x, y), a, sin, cos, 0)
    {
      var depth := 0;
      while depth < MAX_DEPTH
        invariant 0 <= depth <= MAX_DEPTH
        invariant FirstWall(wallAt, Point(x, y), a, sin, cos, 0) == FirstWall(wallAt, Point(x, y), a, sin, cos, depth)
      {
        var target := Point(x - sin(a) * depth as real, y + cos(a) * depth as real);
        assert target == Target(Point(x, y), a, sin, cos, depth);
        var cell := wallAt(target);
        if cell.None? {
          return OutOfMap(depth);
        }
        if cell.value {
          return Hit(depth);
        }
        depth := depth + 1;
      }
      s := Miss;
    }

    /**
     * The rest of one pass of the outer loop of `cast_rays`, once the scan of ray
     * `ray` at angle `a` has ended with `scan`: on a hit, the record of hit point,
     * shade, corrected depth and wall height. It follows the case split of
     * RayOutcome step by step; what a ray contributes is stated by RayResultShape.
     */
    method RecordRay(ray: nat, a: real, scan: Scan, sin: real -> real, cos: real -> real) returns (r: Result<seq<RayHit>>)
      requires a == RayAngle(angle, ray)
      ensures r == RayOutcome(Point(x, y), angle, sin, cos, ray, scan)
    {
      match scan {
        case OutOfMap(_) =>
          r := Err(IndexError);
        case Miss =>
          r := Ok([]);
        case Hit(depth) =>
          var shade := Shade(depth);
          var corrected := depth as real * cos(angle - a);
          assert corrected == Corrected(angle, ray, cos, depth);
          if corrected + 0.0001 == 0.0 {
            return Err(ZeroDivisionError);
          }
          var target := Point(x - sin(a) * depth as real, y + cos(a) * depth as real);
          r := Ok([RayHit(ray, a, target, depth, shade, corrected, WallHeight(corrected))]);
          HitRecordAt(Point(x, y), angle, sin, cos, ray, a, depth);
          assert r == Ok([HitRecord(Point(x, y), angle, sin, cos, ray, depth)]);
      }
    }

    /**
     * The ray cast of `cast_rays`: for each ray of the fan, the first wall along
     * it, and for a hit the record of hit point, shade, corrected depth and wall
     * height. The first exception raised ends the cast.
     */
    method CastRays(sin: real -> real, cos: real -> real) returns (r: Result<seq<RayHit>>)
      ensures r == CastField(wallAt, Point(x, y), angle, sin, cos)
    {
      ghost var rays := FanOf(wallAt, Point(x, y), angle, sin, cos);
      var startAngle := angle - FOV / 2.0;
      var hits: seq<RayHit> := [];
      var ray := 0;
      PrependNothing(Collect(rays, 0));
      while ray < CASTED_RAYS
        invariant 0 <= ray <= CASTED_RAYS
        invariant startAngle == RayAngle(angle, ray)
        invariant Collect(rays, 0) == Prepend(hits, Collect(rays, ray))
      {
        var scan := ScanRay(startAngle, sin, cos);
        var own := RecordRay(ray, startAngle, scan, sin, cos);
        assert own == RayResult(wallAt, Point(x, y), angle, sin, cos, ray);
        CollectStep(rays, hits, ray);
        if own.Err? {
          FanCast(wallAt, Point(x, y), angle, sin, cos, rays);
          return Err(own.fault);
        }
        RayAngleNext(angle, ray);
        hits := hits + own.value;
        startAngle := startAngle + STEP_ANGLE;
        ray := ray + 1;
      }
      CollectEnd(rays, hits);
      FanCast(wallAt, Point(x, y), angle, sin, cos, rays);
      r := Ok(hits);
    }
  }
}
