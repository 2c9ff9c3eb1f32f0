/** The `f32` operations the geometry uses that are exact in IEEE arithmetic
    on finite values, over `real`: NaN and the infinities are not modelled. */
module Floats {

  /** `f32::max` on numbers: the larger of the two. */
  function Max(x: real, y: real): real {
    if x >= y then x else y
  }

  /** `f32::min` on numbers: the smaller of the two. */
  function Min(x: real, y: real): real {
    if x <= y then x else y
  }
}
