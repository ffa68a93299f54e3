/**
 * Screen geometry: the distance shade, the wall-height projection, the wall strip
 * drawn for one ray, and the floor gradient. Drawing itself is left to the
 * drawing surface; these members compute the rectangles and colours it is given.
 */
module Projection {
  import opened Grid

  const HEIGHT: real := 750.0
  const WIDTH: nat := 1200
  /** Number of rays in the fan, one screen strip each. */
  const CASTED_RAYS: nat := 150
  /** WIDTH // CASTED_RAYS: the width of one wall strip. */
  const WALL_WIDTH: nat := WIDTH / CASTED_RAYS
  /** Number of bands of the floor gradient. */
  const FLOOR_LAYERS: nat := 100

  /** A rectangle handed to the drawing surface: left, top, width, height. */
  datatype Rect = Rect(left: real, top: real, width: real, height: real)

  /** The grey level of a wall hit at `depth` steps: full white at 0, darker further away. */
  function Shade(depth: nat): (s: real)
    ensures 0.0 < s <= 255.0
    ensures s == 255.0 <==> depth == 0
  {
    255.0 / (1.0 + depth as real * 0.02)
  }

  /** A farther hit is drawn strictly darker. */
  lemma ShadeDecreasing(near: nat, far: nat)
    requires near < far
    ensures Shade(far) < Shade(near)
  {
    var a, b := 1.0 + near as real * 0.02, 1.0 + far as real * 0.02;
    assert 1.0 <= a < b;
    assert 255.0 / b < 255.0 / a;
  }

  /**
   * The projected height of a wall at fisheye-corrected depth `depth`; the 0.0001
   * keeps depth 0 finite. Defined exactly when the divisor is not zero.
   */
  function WallHeight(depth: real): (h: real)
    requires depth + 0.0001 != 0.0
    ensures depth > -0.0001 ==> h > 0.0
    ensures depth >= 0.0 ==> h <= 210000000.0
    ensures depth == 0.0 ==> h == 210000000.0
  {
    var h := 21000.0 / (depth + 0.0001);
    assert h * (depth + 0.0001) == 21000.0;
    assert depth > -0.0001 && h <= 0.0 ==> h * (depth + 0.0001) <= 0.0;
    h
  }

  /** Nearer walls are drawn strictly taller. */
  lemma WallHeightDecreasing(near: real, far: real)
    requires 0.0 <= near < far
    ensures WallHeight(far) < WallHeight(near)
  {
    var a, b := near + 0.0001, far + 0.0001;
    assert 0.0 < a < b;
    assert 21000.0 / b < 21000.0 / a;
  }

  /** The rectangle `draw_wall` fills for ray number `ray` with a wall of height `wallHeight`. */
  function WallStrip(ray: nat, wallHeight: real): (r: Rect)
    ensures r.left == (ray * WALL_WIDTH) as real && r.width == WALL_WIDTH as real
    ensures r.height == wallHeight
    ensures r.top + r.height / 2.0 == HEIGHT / 2.0
  {
    Rect((ray * WALL_WIDTH) as real, HEIGHT / 2.0 - wallHeight / 2.0, WALL_WIDTH as real, wallHeight)
  }

  /** The strips of the fan lie side by side across the screen, in ray order, without overlap. */
  lemma StripsTileScreen(i: nat, j: nat, hi: real, hj: real)
    requires i < j < CASTED_RAYS
    ensures WallStrip(i, hi).left + WallStrip(i, hi).width <= WallStrip(j, hj).left
    ensures 0.0 <= WallStrip(i, hi).left && WallStrip(j, hj).left + WallStrip(j, hj).width <= WIDTH as real
  {
    assert WALL_WIDTH == 8;
    assert (i + 1) * 8 <= j * 8 <= 149 * 8;
  }

  /** One floor band: its grey level, its y position and the rectangle drawn for it. */
  datatype Band = Band(shade: int, y: real, rect: Rect)

  /**
   * The floor gradient: FLOOR_LAYERS bands from the horizon down, band k with grey
   * level 2k (255 // 100 per band) at y = HEIGHT/2 + k * (HEIGHT/2/100). Each
   * rectangle starts at int(y) and is int(y) tall.
   */
  method FloorBands() returns (bands: seq<Band>)
    ensures |bands| == FLOOR_LAYERS
    ensures forall k :: 0 <= k < |bands| ==>
      bands[k].shade == 2 * k && bands[k].y == HEIGHT / 2.0 + k as real * (HEIGHT / 2.0 / FLOOR_LAYERS as real)
    ensures forall k :: 0 <= k < |bands| ==>
      bands[k].rect == Rect(0.0, Trunc(bands[k].y) as real, WIDTH as real, Trunc(bands[k].y) as real)
    ensures forall k :: 0 <= k < |bands| ==>
      0 <= bands[k].shade <= 198 && HEIGHT / 2.0 <= bands[k].y < HEIGHT
    ensures forall k, l :: 0 <= k < l < |bands| ==> bands[k].shade < bands[l].shade && bands[k].y < bands[l].y
  {
    var layers := FLOOR_LAYERS;
    var step := HEIGHT / 2.0 / layers as real;
    var shadeStep := 255 / layers;
    var shade := 0;
    var y := HEIGHT / 2.0;
    bands := [];
    for tile := 0 to layers
      invariant |bands| == tile
      invariant shade == 2 * tile && y == HEIGHT / 2.0 + tile as real * step
      invariant forall k :: 0 <= k < tile ==>
        bands[k].shade == 2 * k && bands[k].y == HEIGHT / 2.0 + k as real * step
      invariant forall k :: 0 <= k < tile ==>
        bands[k].rect == Rect(0.0, Trunc(bands[k].y) as real, WIDTH as real, Trunc(bands[k].y) as real)
    {
      bands := bands + [Band(shade, y, Rect(0.0, Trunc(y) as real, WIDTH as real, Trunc(y) as real))];
      shade := shade + shadeStep;
      y := y + step;
    }
  }
}
