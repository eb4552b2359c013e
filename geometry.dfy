/** The SFML value types the game passes around: vectors and rectangles. */
module Geometry {

  /** `sf::Vector2f`; floating point is modelled by exact reals. */
  datatype Vec2 = Vec2(x: real, y: real)

  const Zero := Vec2(0.0, 0.0)

  /** `sf::FloatRect`. */
  datatype FloatRect = FloatRect(left: real, top: real, width: real, height: real)

  /** `sf::IntRect`. */
  datatype IntRect = IntRect(left: int, top: int, width: int, height: int)

  /** The value-initialised `sf::IntRect()`. */
  const EmptyIntRect := IntRect(0, 0, 0, 0)

  function Min(a: real, b: real): real { if a <= b then a else b }

  function Max(a: real, b: real): real { if a <= b then b else a }

  /**
   * `sf::Rect::contains(point)`: the rectangle is normalised first (a negative
   * size extends to the left or upwards) and is closed on its left and top
   * edges, open on its right and bottom edges.
   */
  predicate Contains(r: FloatRect, p: Vec2) {
    Min(r.left, r.left + r.width) <= p.x < Max(r.left, r.left + r.width) &&
    Min(r.top, r.top + r.height) <= p.y < Max(r.top, r.top + r.height)
  }
}
