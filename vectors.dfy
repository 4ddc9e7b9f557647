/** Two-dimensional vectors with the operators the tree demo uses
    (openrndr's Vector2): sum, component-wise product, scaling and division. */
module Vectors {

  datatype Vector2 = Vector2(x: real, y: real) {

    /** Component-wise sum (`+`). */
    function Plus(other: Vector2): Vector2 {
      Vector2(x + other.x, y + other.y)
    }

    /** Component-wise difference (`-`). */
    function Minus(other: Vector2): Vector2 {
      Vector2(x - other.x, y - other.y)
    }

    /** Component-wise product of two vectors (`Vector2 * Vector2`). */
    function Times(other: Vector2): Vector2 {
      Vector2(x * other.x, y * other.y)
    }

    /** Product with a scalar (`Vector2 * Double`). */
    function Scale(factor: real): Vector2 {
      Vector2(x * factor, y * factor)
    }

    /** Division by a scalar (`Vector2 / Double`). */
    function Div(divisor: real): Vector2
      requires divisor != 0.0
    {
      Vector2(x / divisor, y / divisor)
    }
  }

  const Origin: Vector2 := Vector2(0.0, 0.0)
}
