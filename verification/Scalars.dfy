/** Scalar helpers shared by the numeric modules. */
module Scalars {
  /** The value brought into [0, 1]. */
  function Clamp(v: real): real { if v < 0.0 then 0.0 else if v > 1.0 then 1.0 else v }

  /** A named product, so that its non-linear meaning can be hidden where only its algebra matters. */
  function Product(x: real, y: real): real { x * y }
}
