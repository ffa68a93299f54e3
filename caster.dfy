/**
 * The ray caster as a specification: a fan of CASTED_RAYS angles around the
 * player's heading; along each angle the depth is stepped 0, 1, 2, ... and the
 * first depth whose sample point lies in a wall is the hit. `math.sin` and
 * `math.cos` are parameters, about which nothing is assumed unless a lemma says so.
 */
module Caster {
  import opened Grid
  import opened Projection

  /** Python's `math.pi`, as its shortest decimal representation. */
  const PI: real := 3.141592653589793
  /** The field of view, about 60 degrees. */
  const FOV: real := PI / 3.0
  /** The angle between neighbouring rays. */
  const STEP_ANGLE: real := FOV / CASTED_RAYS as real
  /** The number of depth steps tried along one ray. */
  const MAX_DEPTH: nat := WIDTH

  /** The Python exceptions the cast can raise. */
  datatype Fault = IndexError | ZeroDivisionError

  datatype Result<T> = Ok(value: T) | Err(fault: Fault)

  /** The outcome of scanning one ray: the first wall depth, no wall, or a lookup off the map. */
  datatype Scan = Hit(depth: nat) | Miss | OutOfMap(depth: nat)

  /** What the caster records for a ray that hits, and hands on for drawing. */
  datatype RayHit = RayHit(
    ray: nat,           // index in the fan, which is also the screen strip
    angle: real,        // the ray's angle
    point: Point,       // the sample point in the wall (an element of `rays_to_draw`)
    depth: nat,         // the raw depth in steps
    shade: real,        // grey level of the strip
    corrected: real,    // depth * cos(heading - angle), the fisheye correction
    wallHeight: real)   // projected height of the strip

  /**
   * The angle of ray `i` of the fan: the fan starts at heading - FOV/2 and each
   * ray adds STEP_ANGLE to the previous one, so ray `i` lies i steps past the start.
   */
  function RayAngle(heading: real, i: nat): (a: real)
    ensures a == heading - FOV / 2.0 + i as real * STEP_ANGLE
  {
    if i == 0 then heading - FOV / 2.0 else RayAngle(heading, i - 1) + STEP_ANGLE
  }

  /** The sample point `depth` steps from `origin` along angle `a`, i.e. origin + depth * (-sin a, cos a). */
  function Target(origin: Point, a: real, sin: real -> real, cos: real -> real, depth: nat): (p: Point)
    ensures depth == 0 ==> p == origin
    ensures sin(a) * sin(a) + cos(a) * cos(a) == 1.0 ==>
      (p.x - origin.x) * (p.x - origin.x) + (p.y - origin.y) * (p.y - origin.y) == depth as real * depth as real
  {
    var d := depth as real;
    assert (sin(a) * d) * (sin(a) * d) + (cos(a) * d) * (cos(a) * d) == (sin(a) * sin(a) + cos(a) * cos(a)) * (d * d);
    Point(origin.x - sin(a) * d, origin.y + cos(a) * d)
  }

  /** Every depth in [from, to) samples a floor cell. */
  ghost predicate Clear(wallAt: Point -> Option<bool>, origin: Point, a: real, sin: real -> real, cos: real -> real, from: nat, to: nat)
  {
    forall e: nat :: from <= e < to ==> wallAt(Target(origin, a, sin, cos, e)) == Some(false)
  }

  /** `depth` is the least depth in [0, MAX_DEPTH) whose sample point is in a wall. */
  ghost predicate IsFirstWall(wallAt: Point -> Option<bool>, origin: Point, a: real, sin: real -> real, cos: real -> real, depth: nat)
  {
    depth < MAX_DEPTH && wallAt(Target(origin, a, sin, cos, depth)) == Some(true)
    && Clear(wallAt, origin, a, sin, cos, 0, depth)
  }

  /**
   * The inner loop of the caster, from depth `from` upward: a hit or a lookup
   * off the map is reported at a depth tried, and a wall is really there.
   */
  function FirstWall(wallAt: Point -> Option<bool>, origin: Point, a: real, sin: real -> real, cos: real -> real, from: nat): (s: Scan)
    ensures s.Hit? ==> from <= s.depth < MAX_DEPTH && wallAt(Target(origin, a, sin, cos, s.depth)) == Some(true)
    ensures s.OutOfMap? ==> from <= s.depth < MAX_DEPTH && wallAt(Target(origin, a, sin, cos, s.depth)).None?
    ensures s.Miss? ==> wallAt(Target(origin, a, sin, cos, from)) == Some(false) || from >= MAX_DEPTH
    decreases MAX_DEPTH - from
  {
    if from >= MAX_DEPTH then Miss
    else
      match wallAt(Target(origin, a, sin, cos, from))
      case None => OutOfMap(from)
      case Some(true) => Hit(from)
      case Some(false) => FirstWall(wallAt, origin, a, sin, cos, from + 1)
  }

  /**
   * The scan stops at the first depth that is not floor: a hit is a wall with
   * floor at every smaller depth, a lookup off the map likewise, and a miss means
   * floor at every depth tried.
   */
  lemma {:induction false} FirstWallIsLeast(wallAt: Point -> Option<bool>, origin: Point, a: real, sin: real -> real, cos: real -> real, from: nat)
    ensures match FirstWall(wallAt, origin, a, sin, cos, from)
      case Hit(d) =>
        from <= d < MAX_DEPTH && wallAt(Target(origin, a, sin, cos, d)) == Some(true)
        && Clear(wallAt, origin, a, sin, cos, from, d)
      case OutOfMap(d) =>
        from <= d < MAX_DEPTH && wallAt(Target(origin, a, sin, cos, d)).None?
        && Clear(wallAt, origin, a, sin, cos, from, d)
      case Miss => Clear(wallAt, origin, a, sin, cos, from, MAX_DEPTH)
    decreases MAX_DEPTH - from
  {
    if from < MAX_DEPTH && wallAt(Target(origin, a, sin, cos, from)) == Some(false) {
      FirstWallIsLeast(wallAt, origin, a, sin, cos, from + 1);
    }
  }

  /**
   * The fisheye-corrected depth of a hit at `depth` on ray `i`: the raw depth
   * scaled by the cosine of the ray's offset from the heading, so never more than
   * the raw depth, and never negative where that cosine is not.
   */
  function Corrected(heading: real, i: nat, cos: real -> real, depth: nat): (c: real)
    ensures depth == 0 ==> c == 0.0
    ensures 0.0 <= cos(heading - RayAngle(heading, i)) ==> 0.0 <= c
    ensures cos(heading - RayAngle(heading, i)) <= 1.0 ==> c <= depth as real
  {
    var k := cos(heading - RayAngle(heading, i));
    assert 0.0 <= k ==> depth as real * k >= 0.0 * k;
    assert k <= 1.0 ==> depth as real * k <= depth as real * 1.0;
    depth as real * k
  }

  /** Ray `i` raises nothing: its lookups stay on the map and a hit has a non-zero projection divisor. */
  ghost predicate RayDefined(wallAt: Point -> Option<bool>, origin: Point, heading: real, sin: real -> real, cos: real -> real, i: nat)
  {
    match FirstWall(wallAt, origin, RayAngle(heading, i), sin, cos, 0)
    case OutOfMap(_) => false
    case Miss => true
    case Hit(d) => Corrected(heading, i, cos, d) + 0.0001 != 0.0
  }

  /** `h` is what the caster records for ray `h.ray`. */
  ghost predicate RecordsRay(wallAt: Point -> Option<bool>, origin: Point, heading: real, sin: real -> real, cos: real -> real, h: RayHit)
  {
    && h.ray < CASTED_RAYS
    && h.angle == RayAngle(heading, h.ray)
    && IsFirstWall(wallAt, origin, h.angle, sin, cos, h.depth)
    && h.point == Target(origin, h.angle, sin, cos, h.depth)
    && h.shade == Shade(h.depth)
    && h.corrected == Corrected(heading, h.ray, cos, h.depth)
    && h.corrected + 0.0001 != 0.0
    && h.wallHeight == WallHeight(h.corrected)
  }

  /** The record of ray `i` hitting at depth `d`. */
  function HitRecord(origin: Point, heading: real, sin: real -> real, cos: real -> real, i: nat, d: nat): RayHit
    requires Corrected(heading, i, cos, d) + 0.0001 != 0.0
  {
    var a := RayAngle(heading, i);
    var corrected := Corrected(heading, i, cos, d);
    RayHit(i, a, Target(origin, a, sin, cos, d), d, Shade(d), corrected, WallHeight(corrected))
  }

  /** The record of ray `i` hitting at depth `d`, written out for the ray's angle `a`. */
  lemma HitRecordAt(origin: Point, heading: real, sin: real -> real, cos: real -> real, i: nat, a: real, d: nat)
    requires a == RayAngle(heading, i)
    requires d as real * cos(heading - a) + 0.0001 != 0.0
    ensures Corrected(heading, i, cos, d) + 0.0001 != 0.0
    ensures HitRecord(origin, heading, sin, cos, i, d) ==
      RayHit(i, a, Point(origin.x - sin(a) * d as real, origin.y + cos(a) * d as real), d, Shade(d),
        d as real * cos(heading - a), WallHeight(d as real * cos(heading - a)))
  {
    assert Corrected(heading, i, cos, d) == d as real * cos(heading - a);
    var h := HitRecord(origin, heading, sin, cos, i, d);
    assert h.point == Target(origin, a, sin, cos, d);
    assert h.corrected == d as real * cos(heading - a);
    assert h.wallHeight == WallHeight(d as real * cos(heading - a));
  }

  /** `prefix` followed by the records of a cast that may have raised. */
  function Prepend(prefix: seq<RayHit>, r: Result<seq<RayHit>>): Result<seq<RayHit>>
  {
    match r
    case Ok(rest) => Ok(prefix + rest)
    case Err(f) => Err(f)
  }

  /** Prepending nothing leaves a cast as it is. */
  lemma PrependNothing(r: Result<seq<RayHit>>)
    ensures Prepend([], r) == r
  {
    if r.Ok? {
      assert [] + r.value == r.value;
    }
  }

  /** Prepending two prefixes in turn prepends their concatenation. */
  lemma PrependTwice(p: seq<RayHit>, q: seq<RayHit>, r: Result<seq<RayHit>>)
    ensures Prepend(p, Prepend(q, r)) == Prepend(p + q, r)
  {
    if r.Ok? {
      assert p + (q + r.value) == (p + q) + r.value;
    }
  }

  /** `first` followed by `rest`; an exception in `first` ends the cast before `rest`. */
  function Then(first: Result<seq<RayHit>>, rest: Result<seq<RayHit>>): Result<seq<RayHit>>
  {
    match first
    case Ok(prefix) => Prepend(prefix, rest)
    case Err(f) => Err(f)
  }

  /**
   * The records of rays i .. CASTED_RAYS - 1, given what each ray contributes
   * (`step`): in ray order, and the first ray that raises ends the cast with its
   * exception.
   */
  function Collect(step: nat -> Result<seq<RayHit>>, i: nat): Result<seq<RayHit>>
    decreases CASTED_RAYS - i
  {
    if i >= CASTED_RAYS then Ok([])
    else Then(step(i), Collect(step, i + 1))
  }

  /** Each ray contributes at most one record, and only for itself. */
  ghost predicate OwnRecords(step: nat -> Result<seq<RayHit>>)
  {
    forall j: nat :: step(j).Ok? ==> |step(j).value| <= 1 && forall h :: h in step(j).value ==> h.ray == j
  }

  /** One pass of the cast loop: ray i either ends the cast with its exception or adds its records. */
  lemma CollectStep(step: nat -> Result<seq<RayHit>>, hits: seq<RayHit>, i: nat)
    requires i < CASTED_RAYS
    ensures step(i).Err? ==> Prepend(hits, Collect(step, i)) == Err(step(i).fault)
    ensures step(i).Ok? ==> Prepend(hits, Collect(step, i)) == Prepend(hits + step(i).value, Collect(step, i + 1))
  {
    if step(i).Ok? {
      PrependTwice(hits, step(i).value, Collect(step, i + 1));
    }
  }

  /** Once every ray has been cast, the records gathered are the result. */
  lemma CollectEnd(step: nat -> Result<seq<RayHit>>, hits: seq<RayHit>)
    ensures Prepend(hits, Collect(step, CASTED_RAYS)) == Ok(hits)
  {
    assert hits + [] == hits;
  }

  /** A cast of rays i.. succeeds exactly when none of those rays raises. */
  lemma {:induction false} CollectOk(step: nat -> Result<seq<RayHit>>, i: nat)
    ensures Collect(step, i).Ok? <==> forall j: nat :: i <= j < CASTED_RAYS ==> step(j).Ok?
    decreases CASTED_RAYS - i
  {
    if i < CASTED_RAYS {
      CollectOk(step, i + 1);
    }
  }

  /**
   * A successful cast of rays i.. holds only records that those rays contribute,
   * at most one per ray, in increasing ray order.
   */
  lemma {:induction false} CollectOrdered(step: nat -> Result<seq<RayHit>>, i: nat)
    requires OwnRecords(step)
    requires i <= CASTED_RAYS
    requires Collect(step, i).Ok?
    ensures var hits := Collect(step, i).value;
      && |hits| <= CASTED_RAYS - i
      && (forall k :: 0 <= k < |hits| ==>
            i <= hits[k].ray < CASTED_RAYS && step(hits[k].ray).Ok? && hits[k] in step(hits[k].ray).value)
      && (forall k, l :: 0 <= k < l < |hits| ==> hits[k].ray < hits[l].ray)
    decreases CASTED_RAYS - i
  {
    if i < CASTED_RAYS {
      CollectOrdered(step, i + 1);
      var own := step(i).value;
      var rest := Collect(step, i + 1).value;
      var hits := Collect(step, i).value;
      assert hits == own + rest;
      assert forall h :: h in own ==> h.ray == i;
      if |own| == 1 {
        assert hits[0] == own[0];
        assert forall k :: 1 <= k < |hits| ==> hits[k] == rest[k - 1];
      }
    }
  }

  /** A failed cast of rays i.. ends at the first of those rays that raises, with its exception. */
  lemma {:induction false} CollectErr(step: nat -> Result<seq<RayHit>>, i: nat)
    requires Collect(step, i).Err?
    ensures exists j: nat :: (i <= j < CASTED_RAYS && step(j).Err? && Collect(step, i).fault == step(j).fault
      && forall k: nat :: i <= k < j ==> step(k).Ok?)
    decreases CASTED_RAYS - i
  {
    if step(i).Err? {
      assert i <= i < CASTED_RAYS && step(i).Err? && Collect(step, i).fault == step(i).fault;
    } else {
      CollectErr(step, i + 1);
      var j: nat :| i + 1 <= j < CASTED_RAYS && step(j).Err? && Collect(step, i + 1).fault == step(j).fault
        && forall k: nat :: i + 1 <= k < j ==> step(k).Ok?;
      assert Collect(step, i).fault == step(j).fault;
    }
  }

  /** A successful cast of rays i.. has a record for every one of those rays that contributes one. */
  lemma {:induction false} CollectComplete(step: nat -> Result<seq<RayHit>>, i: nat, j: nat)
    requires OwnRecords(step)
    requires i <= j < CASTED_RAYS
    requires Collect(step, i).Ok?
    requires step(j).Ok? && |step(j).value| == 1
    ensures exists k :: 0 <= k < |Collect(step, i).value| && Collect(step, i).value[k].ray == j
    decreases j - i
  {
    var own := step(i).value;
    var rest := Collect(step, i + 1).value;
    var hits := Collect(step, i).value;
    assert hits == own + rest;
    if j == i {
      assert own[0] in own;
      assert hits[0] == own[0];
    } else {
      CollectComplete(step, i + 1, j);
      var k :| 0 <= k < |rest| && rest[k].ray == j;
      assert hits[|own| + k] == rest[k];
    }
  }

  /** When rays i.. each contribute exactly their own record, the cast holds ray i + k at position k. */
  lemma {:induction false} CollectAll(step: nat -> Result<seq<RayHit>>, i: nat)
    requires i <= CASTED_RAYS
    requires forall j: nat :: i <= j < CASTED_RAYS ==> step(j).Ok? && |step(j).value| == 1 && step(j).value[0].ray == j
    ensures Collect(step, i).Ok?
    ensures |Collect(step, i).value| == CASTED_RAYS - i
    ensures forall k :: 0 <= k < CASTED_RAYS - i ==> Collect(step, i).value[k].ray == i + k
    decreases CASTED_RAYS - i
  {
    if i < CASTED_RAYS {
      CollectAll(step, i + 1);
      var hits := Collect(step, i).value;
      assert hits == step(i).value + Collect(step, i + 1).value;
    }
  }

  /**
   * What ray `i` contributes to the cast once its scan has ended with `scan`:
   * nothing for a miss, its record for a hit, or the exception it raises.
   */
  function RayOutcome(origin: Point, heading: real, sin: real -> real, cos: real -> real, i: nat, scan: Scan): Result<seq<RayHit>>
  {
    match scan
    case OutOfMap(_) => Err(IndexError)
    case Miss => Ok([])
    case Hit(d) =>
      if Corrected(heading, i, cos, d) + 0.0001 == 0.0 then Err(ZeroDivisionError)
      else Ok([HitRecord(origin, heading, sin, cos, i, d)])
  }

  /** What ray `i` contributes to the cast. */
  function RayResult(wallAt: Point -> Option<bool>, origin: Point, heading: real, sin: real -> real, cos: real -> real, i: nat): Result<seq<RayHit>>
  {
    RayOutcome(origin, heading, sin, cos, i, FirstWall(wallAt, origin, RayAngle(heading, i), sin, cos, 0))
  }

  /** The rays of the fan cast from `origin` with heading `heading`, as what each contributes. */
  function Rays(wallAt: Point -> Option<bool>, origin: Point, heading: real, sin: real -> real, cos: real -> real): nat -> Result<seq<RayHit>>
  {
    (i: nat) => RayResult(wallAt, origin, heading, sin, cos, i)
  }

  /** The whole fan cast from `origin` with heading `heading`. */
  function CastField(wallAt: Point -> Option<bool>, origin: Point, heading: real, sin: real -> real, cos: real -> real): Result<seq<RayHit>>
  {
    Collect(Rays(wallAt, origin, heading, sin, cos), 0)
  }

  /** Casts built from the same per-ray outcomes are the same. */
  lemma {:induction false} CollectSame(f: nat -> Result<seq<RayHit>>, g: nat -> Result<seq<RayHit>>, i: nat)
    requires forall j: nat :: f(j) == g(j)
    ensures Collect(f, i) == Collect(g, i)
    decreases CASTED_RAYS - i
  {
    if i < CASTED_RAYS {
      CollectSame(f, g, i + 1);
    }
  }

  /**
   * The fan's per-ray outcomes as a function known only ray by ray: a proof about
   * the cast loop can use it without unfolding every ray of the fan at once.
   */
  lemma FanOf(wallAt: Point -> Option<bool>, origin: Point, heading: real, sin: real -> real, cos: real -> real)
    returns (rays: nat -> Result<seq<RayHit>>)
    ensures forall i: nat {:trigger RayResult(wallAt, origin, heading, sin, cos, i)} ::
      rays(i) == RayResult(wallAt, origin, heading, sin, cos, i)
  {
    rays := Rays(wallAt, origin, heading, sin, cos);
  }

  /** Collecting such a function is the cast of the fan. */
  lemma FanCast(wallAt: Point -> Option<bool>, origin: Point, heading: real, sin: real -> real, cos: real -> real, rays: nat -> Result<seq<RayHit>>)
    requires forall i: nat {:trigger RayResult(wallAt, origin, heading, sin, cos, i)} ::
      rays(i) == RayResult(wallAt, origin, heading, sin, cos, i)
    ensures Collect(rays, 0) == CastField(wallAt, origin, heading, sin, cos)
  {
    CollectSame(rays, Rays(wallAt, origin, heading, sin, cos), 0);
  }

  /**
   * Ray i raises exactly when it is not RayDefined; otherwise it contributes one
   * record if it hits and none if it misses, and that record is the ray's first
   * wall with its shade and projected height.
   */
  lemma RayResultShape(wallAt: Point -> Option<bool>, origin: Point, heading: real, sin: real -> real, cos: real -> real, i: nat)
    ensures RayResult(wallAt, origin, heading, sin, cos, i).Ok? <==> RayDefined(wallAt, origin, heading, sin, cos, i)
    ensures var r := RayResult(wallAt, origin, heading, sin, cos, i);
      r.Ok? ==>
        && |r.value| <= 1
        && (|r.value| == 1 <==> FirstWall(wallAt, origin, RayAngle(heading, i), sin, cos, 0).Hit?)
        && forall h :: h in r.value ==> h.ray == i && (i < CASTED_RAYS ==> RecordsRay(wallAt, origin, heading, sin, cos, h))
    ensures var r := RayResult(wallAt, origin, heading, sin, cos, i);
      r.Err? ==> (r.fault == IndexError <==> FirstWall(wallAt, origin, RayAngle(heading, i), sin, cos, 0).OutOfMap?)
  {
    var a := RayAngle(heading, i);
    FirstWallIsLeast(wallAt, origin, a, sin, cos, 0);
    var scan := FirstWall(wallAt, origin, a, sin, cos, 0);
    if i < CASTED_RAYS && scan.Hit? && Corrected(heading, i, cos, scan.depth) + 0.0001 != 0.0 {
      var h := HitRecord(origin, heading, sin, cos, i, scan.depth);
      assert RecordsRay(wallAt, origin, heading, sin, cos, h);
      assert RayResult(wallAt, origin, heading, sin, cos, i).value == [h];
    }
  }

  /** The rays of a fan contribute only their own records. */
  lemma RaysOwnRecords(wallAt: Point -> Option<bool>, origin: Point, heading: real, sin: real -> real, cos: real -> real)
    ensures OwnRecords(Rays(wallAt, origin, heading, sin, cos))
  {
    forall j: nat | Rays(wallAt, origin, heading, sin, cos)(j).Ok?
      ensures |Rays(wallAt, origin, heading, sin, cos)(j).value| <= 1
      ensures forall h :: h in Rays(wallAt, origin, heading, sin, cos)(j).value ==> h.ray == j
    {
      RayResultShape(wallAt, origin, heading, sin, cos, j);
    }
  }

  /** The cast succeeds exactly when none of the CASTED_RAYS rays raises. */
  lemma CastDefined(wallAt: Point -> Option<bool>, origin: Point, heading: real, sin: real -> real, cos: real -> real)
    ensures CastField(wallAt, origin, heading, sin, cos).Ok? <==>
      forall j: nat :: j < CASTED_RAYS ==> RayDefined(wallAt, origin, heading, sin, cos, j)
  {
    CollectOk(Rays(wallAt, origin, heading, sin, cos), 0);
    forall j: nat
      ensures Rays(wallAt, origin, heading, sin, cos)(j).Ok? <==> RayDefined(wallAt, origin, heading, sin, cos, j)
    {
      RayResultShape(wallAt, origin, heading, sin, cos, j);
    }
  }

  /**
   * A failed cast ends at the first ray that raises: every earlier ray is defined,
   * and the exception is IndexError exactly when that ray's scan left the map
   * (otherwise it is the ZeroDivisionError of the projection).
   */
  lemma CastFault(wallAt: Point -> Option<bool>, origin: Point, heading: real, sin: real -> real, cos: real -> real)
    requires CastField(wallAt, origin, heading, sin, cos).Err?
    ensures exists j: nat :: (j < CASTED_RAYS && !RayDefined(wallAt, origin, heading, sin, cos, j)
      && (forall k: nat :: k < j ==> RayDefined(wallAt, origin, heading, sin, cos, k))
      && (CastField(wallAt, origin, heading, sin, cos).fault == IndexError <==>
            FirstWall(wallAt, origin, RayAngle(heading, j), sin, cos, 0).OutOfMap?))
  {
    var rays := FanOf(wallAt, origin, heading, sin, cos);
    FanCast(wallAt, origin, heading, sin, cos, rays);
    CollectErr(rays, 0);
    var j: nat :| j < CASTED_RAYS && rays(j).Err? && Collect(rays, 0).fault == rays(j).fault
      && forall k: nat :: k < j ==> rays(k).Ok?;
    assert rays(j) == RayResult(wallAt, origin, heading, sin, cos, j);
    RayResultShape(wallAt, origin, heading, sin, cos, j);
    forall k: nat | k < j
      ensures RayDefined(wallAt, origin, heading, sin, cos, k)
    {
      assert rays(k) == RayResult(wallAt, origin, heading, sin, cos, k);
      RayResultShape(wallAt, origin, heading, sin, cos, k);
    }
  }

  /**
   * A successful cast holds at most one record per ray, in increasing ray order,
   * and each record is the first wall of its ray with its shade and projected height.
   */
  lemma CastRecords(wallAt: Point -> Option<bool>, origin: Point, heading: real, sin: real -> real, cos: real -> real)
    requires CastField(wallAt, origin, heading, sin, cos).Ok?
    ensures var hits := CastField(wallAt, origin, heading, sin, cos).value;
      && |hits| <= CASTED_RAYS
      && (forall k :: 0 <= k < |hits| ==> RecordsRay(wallAt, origin, heading, sin, cos, hits[k]))
      && (forall k, l :: 0 <= k < l < |hits| ==> hits[k].ray < hits[l].ray)
  {
    var step := Rays(wallAt, origin, heading, sin, cos);
    var hits := CastField(wallAt, origin, heading, sin, cos).value;
    RaysOwnRecords(wallAt, origin, heading, sin, cos);
    CollectOrdered(step, 0);
    forall k | 0 <= k < |hits|
      ensures RecordsRay(wallAt, origin, heading, sin, cos, hits[k])
    {
      RayResultShape(wallAt, origin, heading, sin, cos, hits[k].ray);
    }
  }

  /** A successful cast has a record for every ray whose scan hits a wall. */
  lemma CastComplete(wallAt: Point -> Option<bool>, origin: Point, heading: real, sin: real -> real, cos: real -> real, j: nat)
    requires j < CASTED_RAYS
    requires CastField(wallAt, origin, heading, sin, cos).Ok?
    requires FirstWall(wallAt, origin, RayAngle(heading, j), sin, cos, 0).Hit?
    ensures exists k :: 0 <= k < |CastField(wallAt, origin, heading, sin, cos).value| && CastField(wallAt, origin, heading, sin, cos).value[k].ray == j
  {
    var step := Rays(wallAt, origin, heading, sin, cos);
    RaysOwnRecords(wallAt, origin, heading, sin, cos);
    CollectOk(step, 0);
    RayResultShape(wallAt, origin, heading, sin, cos, j);
    CollectComplete(step, 0, j);
  }

  /**
   * The lookup answers on the whole map and reports a wall everywhere outside the
   * interior: what `IsWallAt` gives for a bordered grid.
   */
  ghost predicate WalledIn(wallAt: Point -> Option<bool>)
  {
    forall p :: OnMap(p) ==> wallAt(p).Some? && (!Interior(p) ==> wallAt(p) == Some(true))
  }

  /** The lookup of MAP is walled in. */
  lemma MapIsWalledIn()
    ensures WalledIn(MapWall)
  {
    MapIsBordered();
    forall p | OnMap(p)
      ensures IsWallAt(MAP, p).Some? && (!Interior(p) ==> IsWallAt(MAP, p) == Some(true))
    {
      BorderIsWall(MAP, p);
    }
  }

  /** Facts about sin and cos that the lemmas below rely on. */
  ghost predicate TrigLaws(sin: real -> real, cos: real -> real)
  {
    && (forall t :: sin(t) * sin(t) + cos(t) * cos(t) == 1.0)
    && (forall t :: -FOV / 2.0 <= t <= FOV / 2.0 ==> cos(t) >= 0.0)
  }

  /** A unit direction moves at most one unit per step on each axis, and at least half a unit on one. */
  lemma UnitDirection(s: real, c: real)
    requires s * s + c * c == 1.0
    ensures -1.0 <= s <= 1.0 && -1.0 <= c <= 1.0
    ensures s <= -0.5 || 0.5 <= s || c <= -0.5 || 0.5 <= c
  {
    assert s * s >= 0.0 && c * c >= 0.0;
    SquareBounds(s);
    SquareBounds(c);
  }

  lemma SquareBounds(x: real)
    ensures x * x <= 1.0 ==> -1.0 <= x <= 1.0
    ensures x * x >= 0.25 ==> x <= -0.5 || 0.5 <= x
  {
    if 0.0 <= x < 0.5 {
      assert x * x <= x * 0.5 < 0.25;
    } else if -0.5 < x < 0.0 {
      assert x * x <= x * -0.5 < 0.25;
    }
  }

  /**
   * Stepping one unit at a time, a ray from a point of the map cannot jump over
   * the one-cell (12-unit) border: it hits a wall within 480 steps.
   */
  lemma {:induction false} ScanStopsAtBorder(wallAt: Point -> Option<bool>, origin: Point, a: real, sin: real -> real, cos: real -> real, d: nat)
    requires WalledIn(wallAt)
    requires OnMap(origin)
    requires -1.0 <= sin(a) <= 1.0 && -1.0 <= cos(a) <= 1.0
    requires sin(a) <= -0.5 || 0.5 <= sin(a) || cos(a) <= -0.5 || 0.5 <= cos(a)
    requires d <= 480
    requires OnMap(Target(origin, a, sin, cos, d))
    ensures FirstWall(wallAt, origin, a, sin, cos, d).Hit?
    ensures FirstWall(wallAt, origin, a, sin, cos, d).depth <= 480
    decreases 480 - d
  {
    var p := Target(origin, a, sin, cos, d);
    if wallAt(p) == Some(false) {
      assert Interior(p);
      assert !Interior(Target(origin, a, sin, cos, 480));
      assert d < 480;
      var q := Target(origin, a, sin, cos, d + 1);
      assert q.x == p.x - sin(a) && q.y == p.y + cos(a);
      ScanStopsAtBorder(wallAt, origin, a, sin, cos, d + 1);
    }
  }

  /** The next ray's angle is one STEP_ANGLE further on. */
  lemma RayAngleNext(heading: real, i: nat)
    ensures RayAngle(heading, i + 1) == RayAngle(heading, i) + STEP_ANGLE
  {
  }

  /** Every ray of the fan has an angle within FOV/2 of the heading. */
  lemma RayOffsetInFov(heading: real, i: nat)
    requires i < CASTED_RAYS
    ensures -FOV / 2.0 <= heading - RayAngle(heading, i) <= FOV / 2.0
  {
    assert STEP_ANGLE * CASTED_RAYS as real == FOV;
    assert 0.0 <= i as real * STEP_ANGLE <= CASTED_RAYS as real * STEP_ANGLE;
  }

  /** From a point of a walled-in map, each ray of the fan hits a wall and raises nothing. */
  lemma RayHitsFromMap(wallAt: Point -> Option<bool>, origin: Point, heading: real, sin: real -> real, cos: real -> real, j: nat)
    requires WalledIn(wallAt)
    requires TrigLaws(sin, cos)
    requires OnMap(origin)
    requires j < CASTED_RAYS
    ensures FirstWall(wallAt, origin, RayAngle(heading, j), sin, cos, 0).Hit?
    ensures RayDefined(wallAt, origin, heading, sin, cos, j)
  {
    var a := RayAngle(heading, j);
    UnitDirection(sin(a), cos(a));
    assert Target(origin, a, sin, cos, 0) == origin;
    ScanStopsAtBorder(wallAt, origin, a, sin, cos, 0);
    RayOffsetInFov(heading, j);
    assert cos(heading - a) >= 0.0;
  }

  /**
   * On a bordered map, from any point of the map, every one of the CASTED_RAYS
   * rays hits a wall and the cast raises nothing: it returns exactly one record
   * per ray, ray k at position k.
   */
  lemma EveryRayHits(wallAt: Point -> Option<bool>, origin: Point, heading: real, sin: real -> real, cos: real -> real)
    requires WalledIn(wallAt)
    requires TrigLaws(sin, cos)
    requires OnMap(origin)
    ensures CastField(wallAt, origin, heading, sin, cos).Ok?
    ensures |CastField(wallAt, origin, heading, sin, cos).value| == CASTED_RAYS
    ensures forall k :: 0 <= k < CASTED_RAYS ==> CastField(wallAt, origin, heading, sin, cos).value[k].ray == k
  {
    forall j: nat | j < CASTED_RAYS
      ensures Rays(wallAt, origin, heading, sin, cos)(j).Ok?
      ensures |Rays(wallAt, origin, heading, sin, cos)(j).value| == 1
      ensures Rays(wallAt, origin, heading, sin, cos)(j).value[0].ray == j
    {
      RayHitsFromMap(wallAt, origin, heading, sin, cos, j);
      RayResultShape(wallAt, origin, heading, sin, cos, j);
      assert Rays(wallAt, origin, heading, sin, cos)(j).value[0] in Rays(wallAt, origin, heading, sin, cos)(j).value;
    }
    CollectAll(Rays(wallAt, origin, heading, sin, cos), 0);
  }
}
