/** The C maths library calls the core makes (`sqrt`, `sin`, `cos`). Their bodies
    are foreign code, so the model takes them as function values supplied by the
    caller and relies only on what a caller states about them. `pow(x, 2.0)` is
    written `x * x` where it is used. */
module Libm {

  datatype MathLib = MathLib(sqrt: real -> real, sin: real -> real, cos: real -> real)
  {
    /** The one fact the step needs: the root of a positive number is positive,
        so dividing by a length computed from a positive square is defined. */
    ghost predicate SqrtPositive()
    {
      forall v: real :: 0.0 < v ==> 0.0 < sqrt(v)
    }

    /** sin^2 t + cos^2 t == 1 for every t: what sin and cos must satisfy for an
        angle to give a direction of unit length. */
    ghost predicate Pythagorean()
    {
      forall t: real :: sin(t) * sin(t) + cos(t) * cos(t) == 1.0
    }
  }
}
