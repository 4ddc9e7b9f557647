/** The coordinate mapper: normalized cartesian coordinates, -1..1 along the
    shorter side of the canvas with y pointing up, to canvas pixels with y
    pointing down. The canvas size is passed in instead of being read from the
    global painter. */
module Screen {
  import opened Vectors

  /** Multiplying by this vector component-wise mirrors a point in the x axis. */
  const FlipY: Vector2 := Vector2(1.0, -1.0)

  /** The canvas size in pixels as a vector. */
  function Resolution(width: int, height: int): Vector2 {
    Vector2(width as real, height as real)
  }

  /** The shorter side of the canvas: the length that the normalized range -1..1 spans. */
  function MinDimension(width: int, height: int): (m: real)
    ensures m <= width as real && m <= height as real
    ensures m == width as real || m == height as real
  {
    if width <= height then width as real else height as real
  }

  /** Flip y (`coord * FLIP_Y`, the negation spelled out), scale, then shift by
      the resolution and halve: the mapping for a given scale and canvas size. */
  function MapPoint(coord: Vector2, scale: real, resolution: Vector2): Vector2 {
    Vector2(coord.x, -coord.y).Scale(scale).Plus(resolution).Div(2.0)
  }

  /** Flip y, scale by the shorter side, then move the origin to the canvas centre. */
  function ToScreenCoord(coord: Vector2, width: int, height: int): Vector2 {
    MapPoint(coord, MinDimension(width, height), Resolution(width, height))
  }

  /** The flip in MapPoint is exactly the component-wise product with FlipY. */
  lemma FlipIsTimesFlipY(coord: Vector2)
    ensures Vector2(coord.x, -coord.y) == coord.Times(FlipY)
  {
  }

  /** The normalized origin lands on the centre of the canvas. */
  lemma CentreMapsToCanvasCentre(width: int, height: int)
    ensures ToScreenCoord(Origin, width, height) == Vector2(width as real / 2.0, height as real / 2.0)
  {
    OriginToHalfResolution(MinDimension(width, height), Resolution(width, height));
  }

  /** The map is one uniform scale by half the shorter side, mirrored in y:
      the displacement between two mapped points is the normalized displacement
      scaled equally on both axes, so shapes keep their aspect ratio. */
  lemma UniformScale(p: Vector2, q: Vector2, width: int, height: int)
    ensures var m := MinDimension(width, height);
      ToScreenCoord(q, width, height).Minus(ToScreenCoord(p, width, height))
      == Vector2((q.x - p.x) * m / 2.0, -((q.y - p.y) * m) / 2.0)
  {
    DisplacementScaled(p, q, MinDimension(width, height), Resolution(width, height));
  }

  /** On a canvas with a positive shorter side, y is flipped (higher up in
      normalized space means a smaller pixel row) and x keeps its order. */
  lemma FlipsYKeepsX(p: Vector2, q: Vector2, width: int, height: int)
    requires MinDimension(width, height) > 0.0
    ensures p.y < q.y <==> ToScreenCoord(p, width, height).y > ToScreenCoord(q, width, height).y
    ensures p.x < q.x <==> ToScreenCoord(p, width, height).x < ToScreenCoord(q, width, height).x
  {
    OrderKeptAndFlipped(p, q, MinDimension(width, height), Resolution(width, height));
  }

  /** Every point of the normalized square [-1,1] x [-1,1] lands inside the
      canvas, because the scale is the shorter side. */
  lemma UnitSquareInsideCanvas(p: Vector2, width: int, height: int)
    requires 0 <= width && 0 <= height
    requires -1.0 <= p.x <= 1.0 && -1.0 <= p.y <= 1.0
    ensures var s := ToScreenCoord(p, width, height);
      0.0 <= s.x <= width as real && 0.0 <= s.y <= height as real
  {
    SquareInside(p, MinDimension(width, height), Resolution(width, height));
  }

  // The same facts for MapPoint with a plain scale, where each proof stays small.

  lemma MapPointComponents(coord: Vector2, scale: real, resolution: Vector2)
    ensures MapPoint(coord, scale, resolution)
      == Vector2((coord.x * scale + resolution.x) / 2.0, ((-coord.y) * scale + resolution.y) / 2.0)
  {
  }

  lemma OriginToHalfResolution(scale: real, resolution: Vector2)
    ensures MapPoint(Origin, scale, resolution) == Vector2(resolution.x / 2.0, resolution.y / 2.0)
  {
  }

  lemma DisplacementScaled(p: Vector2, q: Vector2, scale: real, resolution: Vector2)
    ensures MapPoint(q, scale, resolution).Minus(MapPoint(p, scale, resolution))
      == Vector2((q.x - p.x) * scale / 2.0, -((q.y - p.y) * scale) / 2.0)
  {
    MapPointComponents(p, scale, resolution);
    MapPointComponents(q, scale, resolution);
    Distributes(q.x, p.x, scale);
    Distributes(-q.y, -p.y, scale);
  }

  lemma OrderKeptAndFlipped(p: Vector2, q: Vector2, scale: real, resolution: Vector2)
    requires scale > 0.0
    ensures p.y < q.y <==> MapPoint(p, scale, resolution).y > MapPoint(q, scale, resolution).y
    ensures p.x < q.x <==> MapPoint(p, scale, resolution).x < MapPoint(q, scale, resolution).x
  {
    DisplacementScaled(p, q, scale, resolution);
    SignOfProduct(q.y - p.y, scale);
    SignOfProduct(q.x - p.x, scale);
  }

  lemma SquareInside(p: Vector2, scale: real, resolution: Vector2)
    requires 0.0 <= scale <= resolution.x && scale <= resolution.y
    requires -1.0 <= p.x <= 1.0 && -1.0 <= p.y <= 1.0
    ensures var s := MapPoint(p, scale, resolution);
      0.0 <= s.x <= resolution.x && 0.0 <= s.y <= resolution.y
  {
    MapPointComponents(p, scale, resolution);
    ScaledWithin(p.x, scale);
    ScaledWithin(-p.y, scale);
  }

  // Facts about products of reals.

  lemma Distributes(a: real, b: real, m: real)
    ensures (a - b) * m == a * m - b * m
  {
  }

  lemma NonNegativeProduct(a: real, m: real)
    requires a >= 0.0 && m >= 0.0
    ensures a * m >= 0.0
  {
  }

  lemma SignOfProduct(a: real, m: real)
    requires m > 0.0
    ensures a > 0.0 <==> a * m > 0.0
  {
    if a > 0.0 {
      assert a * m > 0.0;
    } else {
      NonNegativeProduct(-a, m);
      Distributes(0.0, a, m);
    }
  }

  lemma ScaledWithin(a: real, m: real)
    requires 0.0 <= m && -1.0 <= a <= 1.0
    ensures -m <= a * m <= m
  {
    NonNegativeProduct(1.0 - a, m);
    NonNegativeProduct(1.0 + a, m);
    Distributes(1.0, a, m);
    Distributes(1.0, -a, m);
  }
}
