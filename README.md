# Raycaster core in Dafny

This project models the core of `raycasting_simulation.py`, a pygame raycaster
that draws a first-person view of a 20x20 tile map. It covers:

- the wall lookup on the fixed map;
- one frame of player movement (`update_player_pos`);
- the collision push-back (`check_collision`);
- the ray cast (`cast_rays`) with its shade, fisheye correction and wall-height projection;
- the rectangle of each wall strip (`draw_wall`);
- the floor gradient (`draw_floor`).

Modules:

- `Grid` (grid.dfy): the map, Python's `int()` truncation and Python indexing
  (negative indices count from the end, anything else out of range is IndexError),
  and the lookup "is this world point in a wall".
- `Projection` (projection.dfy): shade, wall height, the strip rectangle for one
  ray, and the floor bands (a method with the source's loop).
- `Caster` (caster.dfy): the specification of the cast. `FirstWall` is the inner
  depth loop. `RayResult` is what one ray contributes (nothing, one record, or an
  exception). `Collect` strings the rays together, and the first exception ends
  the cast. `CastField` is the whole fan. The lemmas state what a cast contains,
  and that from any point of the map every ray hits.
- `Movement` (movement.dfy): the movement step and the collision push-back as
  functions on a `Pose` value.
- `PlayerState` (player.dfy): the player as a class. Its fields are the module-level
  variables the program mutates. Its methods perform the source's in-place updates
  and loops, and each is proved equal to the functions above.

Modelling choices:

- Python floats are reals. `math.sin` and `math.cos` are function parameters
  `sin, cos: real -> real`. The lemmas that need facts about them (`RayHitsFromMap`
  and `EveryRayHits`) take those facts as a precondition, `TrigLaws`: sin²+cos² = 1, and cos ≥ 0
  within half the field of view.
- `math.pi` is the literal 3.141592653589793.
- The lookup is passed to the caster and to the collision check as a function
  `wallAt: Point -> Option<bool>`. The player's `wallAt` is always `MapWall`, the
  lookup on `MAP`; `MapIsWalledIn` shows what the cast lemmas need of it.
- IndexError from a lookup off the map, and ZeroDivisionError from `depth + 0.0001 == 0`,
  are `Err` results, not preconditions. The collision check leaves the player
  unchanged when it raises.
- The fast-forward step moves 1.5 for the forward key and then a further 1.0 with
  shift, 2.5 in all (raycasting_simulation.py:74-79), and `Move` does the same.
- The ray angle is accumulated as the code does: each ray adds STEP_ANGLE to the
  previous one. `RayAngle` is defined that way and proved equal to the closed form.

## Model

| member | source | states |
|---|---|---|
| Grid.Trunc | raycasting_simulation.py:89-90 | `int()` of a float truncates toward zero: for x ≥ 0 the result n has n ≤ x < n+1; for x < 0 it has n-1 < x ≤ n |
| Grid.PyIndex | raycasting_simulation.py:91 | indexing a sequence of length n with i succeeds exactly when -n ≤ i < n, and reads position i, or i+n for a negative i |
| Grid.CellAt | raycasting_simulation.py:91 | on a 20x20 map, `MAP[row][col]` is defined exactly when both indices lie in [-20, 20); it is the cell itself for non-negative indices, and in general the cell at the positions Python reads, with 20 added to a negative row or column |
| Grid.CellIndex | raycasting_simulation.py:89-90 | the index of a coordinate is the 12-unit cell that holds it: n·12 ≤ c < (n+1)·12 for c ≥ 0, and (n-1)·12 < c ≤ n·12 for c < 0 (truncation toward zero) |
| Grid.IsWallAt | raycasting_simulation.py:89-91 | the lookup of a world point is defined exactly when both truncated cell indices lie in [-20, 20); inside the map it reports whether that cell is '#', and in general whether the cell Python reads (a negative index wrapped by 20) is '#' |
| Grid.MapWall | raycasting_simulation.py:117-120 | the lookup on MAP raises exactly when a cell index leaves [-20, 20), and otherwise reports whether the cell Python reads is '#' (the cell under the point, inside the map) |
| Grid.MapIsBordered | raycasting_simulation.py:35-57 | MAP is 20x20, and its first and last rows and columns are all '#' |
| Grid.CellIndexOnMap | raycasting_simulation.py:28 | a coordinate in [0, 240) lies in cell 0..19, and in an inner cell 1..18 exactly when it lies in [12, 228) |
| Grid.BorderIsWall | raycasting_simulation.py:35-57 | on a bordered map, the lookup of any point of the map is defined, and every point outside the inner cells is a wall |
| Projection.Shade | raycasting_simulation.py:123 | the grey level lies in (0, 255] and is full white exactly at depth 0 |
| Projection.ShadeDecreasing | raycasting_simulation.py:123 | a farther hit is strictly darker |
| Projection.WallHeight | raycasting_simulation.py:125 | defined exactly when the divisor is non-zero; positive above depth -0.0001; at most 210000000 for depths ≥ 0, and exactly that at 0 |
| Projection.WallHeightDecreasing | raycasting_simulation.py:124-125 | for corrected depths ≥ 0, a nearer wall is drawn strictly taller |
| Projection.WallStrip | raycasting_simulation.py:103-104 | strip k starts at 8k, is 8 wide and wall-height tall, and is centred vertically on the horizon |
| Projection.StripsTileScreen | raycasting_simulation.py:26 | the strips of rays i < j lie left to right, do not overlap, and stay within the 1200-pixel width |
| Projection.FloorBands | raycasting_simulation.py:153-162 | 100 bands: band k has grey level 2k at y = 375 + 3.75k, and is drawn at int(y) with height int(y); shades and positions strictly increase and stay within the lower half of the screen |
| Caster.RayAngle | raycasting_simulation.py:108-130 | the angle reached by starting at heading - FOV/2 and adding STEP_ANGLE once per ray is heading - FOV/2 + i·STEP_ANGLE for ray i |
| Caster.RayOffsetInFov | raycasting_simulation.py:21-23 | every ray of the fan lies within FOV/2 of the heading |
| Caster.Target | raycasting_simulation.py:113-114 | the sample point at depth 0 is the player's position, and for a unit direction (sin²+cos² = 1) the point at depth d lies exactly d units from it |
| Caster.FirstWall | raycasting_simulation.py:112-128 | the depth loop reports a hit only at a depth below MAX_DEPTH whose sample point is a wall, and an IndexError only at a depth whose lookup is off the map; a miss has floor where it started |
| Caster.FirstWallIsLeast | raycasting_simulation.py:112-128 | the depth scan stops at the first depth that is not floor: a hit is a wall with floor at all smaller depths, and so is a lookup off the map; a miss means floor at every depth below MAX_DEPTH |
| Caster.CollectOk | raycasting_simulation.py:111 | a cast (`Collect`) of rays i.. succeeds exactly when none of those rays raises |
| Caster.CollectOrdered | raycasting_simulation.py:111-128 | a successful cast holds only records its rays contribute, at most one per ray, in strictly increasing ray order |
| Caster.CollectComplete | raycasting_simulation.py:111-128 | a successful cast has a record for every ray that contributes one |
| Caster.CollectAll | raycasting_simulation.py:111-130 | when every ray contributes exactly its own record, record k of the cast is ray k |
| Caster.RayResultShape | raycasting_simulation.py:112-128 | what one ray contributes (`RayResult`, via `RayOutcome` and `HitRecord`): it raises exactly when its scan leaves the map or its divisor is zero, and the exception is IndexError exactly in the first case (ZeroDivisionError otherwise); otherwise it gives one record if it hits and none if it misses, and that record holds its angle, first-wall depth, hit point, shade, corrected depth and wall height |
| Caster.CastDefined | raycasting_simulation.py:107-130 | the cast of the whole fan (`CastField`) succeeds exactly when none of the 150 rays raises |
| Caster.CastFault | raycasting_simulation.py:111-125 | a failed cast ends at the first ray that raises: every earlier ray is defined, and the exception is IndexError exactly when that ray's scan left the map |
| Caster.CollectErr | raycasting_simulation.py:111-128 | a failed cast of rays i.. carries the exception of the first of those rays that raises |
| Caster.CastRecords | raycasting_simulation.py:107-130 | a successful cast has at most 150 records, in strictly increasing ray order, and each record is the first wall of its ray with that ray's shade and projected height |
| Caster.CastComplete | raycasting_simulation.py:111-128 | a successful cast has a record for every ray whose scan hits a wall |
| Caster.MapIsWalledIn | raycasting_simulation.py:35-57 | the lookup on MAP answers everywhere on the map, and reports a wall everywhere outside the inner cells |
| Caster.ScanStopsAtBorder | raycasting_simulation.py:112-120 | from a point of a walled-in map, along a direction whose steps move at most 1 on each axis and at least 0.5 on one, the scan hits a wall within 480 steps (below MAX_DEPTH), because such a step cannot jump the 12-unit border |
| Caster.RayHitsFromMap | raycasting_simulation.py:108-128 | from a point of a walled-in map, each ray of the fan hits a wall and raises nothing |
| Caster.Corrected | raycasting_simulation.py:124 | the fisheye-corrected depth is 0 at depth 0, is non-negative when cos is non-negative at the ray's offset from the heading, and never exceeds the raw depth when that cos is at most 1 |
| Caster.EveryRayHits | raycasting_simulation.py:107-130 | from any point of the map (and given TrigLaws), the cast raises nothing and returns exactly 150 records, record k for ray k |
| Movement.Move | raycasting_simulation.py:60-83 | the heading changes by -0.1 for left and +0.1 for right. The position moves by (1.5, plus 1.0 with shift when forward, minus 1.5 when backward) along (-sin, cos) of the new heading. The flag becomes 'b' if backward is held, else 'fs' or 'f' when forward is held. With no movement key, position and flag are unchanged |
| Movement.Travel | raycasting_simulation.py:72-83 | the net distance of a frame: 0 with no movement key, 1.5 forward or 2.5 with shift, -1.5 backward, and with both keys held 1.0 with shift or else 0 |
| Movement.Push | raycasting_simulation.py:92-100 | the push reverses twice the step that set the flag: -2·1.5 = -3 for 'f', -2·(1.5+1.0) = -5 for 'fs', +2·1.5 = +3 for 'b'; it is forward exactly for 'b' |
| Movement.Collide | raycasting_simulation.py:86-100 | the check raises exactly when the lookup of the position is off the map; heading and flag never change; on floor nothing moves; in a wall the player is pushed 3 back for 'f', 5 back for 'fs' and 3 forward for 'b' |
| Movement.PushBackMirrorsMove | raycasting_simulation.py:72-100 | after a plain forward or backward frame that ends in a wall, the push-back lands at the mirror image of the move through the starting point |
| Movement.BothKeysPushForward | raycasting_simulation.py:72-100 | with forward, shift and backward all held, the net move (1.0) is forward but the flag is 'b', so a wall pushes the player further forward, to 4 times the net move |
| PlayerState.Player.constructor | raycasting_simulation.py:25-33 | the player starts at the centre of the map (120, 120), heading 0, flag 'f', and looks up walls on MAP |
| PlayerState.Player.UpdatePos | raycasting_simulation.py:60-83 | the in-place field updates leave the player in the pose `Move` gives |
| PlayerState.Player.CheckCollision | raycasting_simulation.py:86-100 | succeeds exactly when `Collide` does and then leaves the player in its pose; on IndexError the player is unchanged |
| PlayerState.Player.ScanRay | raycasting_simulation.py:112-128 | the depth loop returns the outcome `FirstWall` specifies |
| PlayerState.Player.RecordRay | raycasting_simulation.py:120-126 | the record built for a scan outcome is the one `RayOutcome` specifies, including the ZeroDivisionError case |
| PlayerState.Player.CastRays | raycasting_simulation.py:107-130 | the loop over the fan returns exactly `CastField` of the player's state |

## Left out

- pygame setup, the window, colours, the frame clock, `update` and `main`
  (raycasting_simulation.py:1-19, 165-189): I/O and glue around the core.
- `draw_map` (raycasting_simulation.py:135-150) and the drawing calls themselves: only
  the values handed to the drawing surface are modelled. These are each strip's
  rectangle and grey level, the floor bands, and each ray's hit point (the list
  `rays_to_draw`).
- Reading the keyboard: the keys held in a frame are the `Intent` parameter.
- IEEE-754 float rounding: all arithmetic is on reals, so a rounding effect, such
  as the accumulated ray angle drifting, is not modelled.
- The values of `math.sin` and `math.cos`: they are uninterpreted parameters.
  `EveryRayHits` assumes only `TrigLaws` about them.
- The one-cell-thick-wall property of the push-back (a forward push from a wall lands
  on floor) is not proved. It depends on the values of sin and cos and on the wall
  geometry; the model proves the exact push-back position instead
  (`Movement.Collide`, `Movement.PushBackMirrorsMove`).
- PlayerState.Player.constructor: the constructor's contract is the only place that
  states `wallAt == MapWall`. The field is a const, so it keeps that value, but it has
  no initializer, because with one the solver unfolds the whole map lookup inside the
  proofs of the cast loops. Code holding a `Player` it did not construct cannot
  conclude `wallAt == MapWall`, so cannot apply `MapIsWalledIn` and `EveryRayHits` to `CastRays`.
- Maps other than `MAP`, and other field-of-view settings: the map and the constants
  are fixed, as in the source.
