/** The world rectangle and the axis-aligned overlap test every other part of
    the server uses (server.js, `checkCollision` and the clamps applied after
    every move). */
module Geometry {

  const WorldWidth: real := 1600.0
  const WorldHeight: real := 1200.0

  /** An axis-aligned box. Bullets carry no width or height at all; such a
      missing extent is written 0.0 here, which the source's `w || 4` treats
      exactly like an explicit zero. */
  datatype Rect = Rect(x: real, y: real, width: real, height: real)

  /** JavaScript's `v || default` on a number (NaN is not modelled). */
  function OrDefault(v: real, default: real): real {
    if v == 0.0 then default else v
  }

  /** `checkCollision(a, b)`: strict overlap on both axes; only the FIRST box
      falls back to a 4x4 extent. */
  predicate CheckCollision(a: Rect, b: Rect)
    // boxes separated along either axis do not collide
    ensures a.x + OrDefault(a.width, 4.0) <= b.x || b.x + b.width <= a.x ==> !CheckCollision(a, b)
    ensures a.y + OrDefault(a.height, 4.0) <= b.y || b.y + b.height <= a.y ==> !CheckCollision(a, b)
    // a collision needs a positive combined extent on both axes
    ensures CheckCollision(a, b) ==> b.width + OrDefault(a.width, 4.0) > 0.0 && b.height + OrDefault(a.height, 4.0) > 0.0
  {
    && a.x < b.x + b.width
    && a.x + OrDefault(a.width, 4.0) > b.x
    && a.y < b.y + b.height
    && a.y + OrDefault(a.height, 4.0) > b.y
  }

  /** The point (px, py) lies in the open interior of r. */
  predicate Inside(px: real, py: real, r: Rect) {
    r.x < px < r.x + r.width && r.y < py < r.y + r.height
  }

  function Max(a: real, b: real): real { if a < b then b else a }
  function Min(a: real, b: real): real { if a < b then a else b }

  /** For boxes with explicit positive extents, the four-comparison test is
      exactly "the two open boxes share a point". */
  lemma CollisionIffCommonPoint(a: Rect, b: Rect)
    requires a.width > 0.0 && a.height > 0.0 && b.width > 0.0 && b.height > 0.0
    ensures CheckCollision(a, b) <==> exists px, py :: Inside(px, py, a) && Inside(px, py, b)
  {
    if CheckCollision(a, b) {
      var px := (Max(a.x, b.x) + Min(a.x + a.width, b.x + b.width)) / 2.0;
      var py := (Max(a.y, b.y) + Min(a.y + a.height, b.y + b.height)) / 2.0;
      assert Inside(px, py, a) && Inside(px, py, b);
    }
  }

  /** With explicit positive extents the test is symmetric. */
  lemma CollisionSymmetric(a: Rect, b: Rect)
    requires a.width > 0.0 && a.height > 0.0 && b.width > 0.0 && b.height > 0.0
    ensures CheckCollision(a, b) == CheckCollision(b, a)
  {
    CollisionIffCommonPoint(a, b);
    CollisionIffCommonPoint(b, a);
  }

  /** A box without extent (a bullet) is tested as the 4x4 box at its corner. */
  lemma MissingExtentIsFour(x: real, y: real, b: Rect)
    ensures CheckCollision(Rect(x, y, 0.0, 0.0), b) == CheckCollision(Rect(x, y, 4.0, 4.0), b)
  {
  }

  /** `Math.max(0, Math.min(limit, v))`, the clamp applied to every moved
      entity with limit `WORLD_WIDTH - width` (or the height analogue). */
  function Clamp(v: real, limit: real): (r: real)
    ensures 0.0 <= r
    ensures 0.0 <= limit ==> r <= limit
    ensures 0.0 <= v <= limit ==> r == v
    ensures v < 0.0 ==> r == 0.0
    ensures 0.0 <= limit < v ==> r == limit
    ensures limit < 0.0 ==> r == 0.0
  {
    Max(0.0, Min(limit, v))
  }

  /** Clamping twice changes nothing more. */
  lemma ClampIdempotent(v: real, limit: real)
    ensures Clamp(Clamp(v, limit), limit) == Clamp(v, limit)
  {
  }
}
