/** `vec2` (nbody.h): a pair of reals with component-wise operators, their
    in-place compound forms, `length`, `length2` and `normalise`. */
module Vector {
  import opened Libm

  datatype Vec2 = Vec2(x: real, y: real)

  /** vec2(0, 0), also what the default constructor builds. */
  const ZERO: Vec2 := Vec2(0.0, 0.0)

  /** a + b */
  function Add(a: Vec2, b: Vec2): Vec2
  {
    Vec2(a.x + b.x, a.y + b.y)
  }

  /** a - b */
  function Sub(a: Vec2, b: Vec2): Vec2
  {
    Vec2(a.x - b.x, a.y - b.y)
  }

  /** a * b for a vector a and a scalar b */
  function Scale(a: Vec2, b: real): Vec2
  {
    Vec2(a.x * b, a.y * b)
  }

  /** a * b for a scalar a and a vector b */
  function ScaleLeft(a: real, b: Vec2): Vec2
  {
    Vec2(a * b.x, a * b.y)
  }

  /** a / b for a vector a and a non-zero scalar b */
  function Div(a: Vec2, b: real): Vec2
    requires b != 0.0
  {
    Vec2(a.x / b, a.y / b)
  }

  /** The scalar product; not an operator of the source, used to state
      perpendicularity. */
  function Dot(a: Vec2, b: Vec2): real
  {
    a.x * b.x + a.y * b.y
  }

  /** Subtraction undoes addition, and addition undoes subtraction. */
  lemma AddSubInverse(a: Vec2, b: Vec2)
    ensures Sub(Add(a, b), b) == a && Add(Sub(a, b), b) == a
  {
  }

  /** Both scalar products agree, and Div is scaling by the reciprocal, which
      Scale undoes. */
  lemma ScaleDivAgree(a: Vec2, s: real)
    requires s != 0.0
    ensures ScaleLeft(s, a) == Scale(a, s)
    ensures Div(a, s) == Scale(a, 1.0 / s)
    ensures Scale(Div(a, s), s) == a && Div(Scale(a, s), s) == a
  {
  }

  /** length2(a) = pow(a.x, 2) + pow(a.y, 2), never negative. */
  function Length2(a: Vec2): (r: real)
    ensures 0.0 <= r
  {
    SquareNonnegative(a.x);
    SquareNonnegative(a.y);
    a.x * a.x + a.y * a.y
  }

  lemma SquareNonnegative(v: real)
    ensures 0.0 <= v * v
  {
  }

  /** A unit direction (c, s) scaled by r has squared length r^2. */
  lemma ScaledUnitLength(c: real, s: real, r: real)
    requires c * c + s * s == 1.0
    ensures Length2(Scale(Vec2(c, s), r)) == r * r
  {
    assert (c * r) * (c * r) + (s * r) * (s * r) == (c * c + s * s) * (r * r);
  }

  /** length(a) = sqrt(length2(a)). */
  function Length(a: Vec2, lib: MathLib): real
  {
    lib.sqrt(Length2(a))
  }

  /** With a square root that is positive on positive numbers, a vector whose
      squared length is non-zero has a positive length. */
  lemma LengthPositive(a: Vec2, lib: MathLib)
    requires lib.SqrtPositive() && Length2(a) != 0.0
    ensures 0.0 < Length(a, lib)
  {
  }

  /** normalise(a) = a / length(a); scaling the result back by the length gives
      a again. */
  function Normalise(a: Vec2, lib: MathLib): (u: Vec2)
    requires Length(a, lib) != 0.0
    ensures Scale(u, Length(a, lib)) == a
  {
    ScaleDivAgree(a, Length(a, lib));
    Div(a, Length(a, lib))
  }

  /** a += b: the left operand, here the slot a[k], ends up equal to a + b. */
  method AddInto(a: array<Vec2>, k: nat, b: Vec2)
    requires k < a.Length
    modifies a
    ensures a[..] == old(a[..])[k := Add(old(a[k]), b)]
  {
    a[k] := a[k].(x := a[k].x + b.x);
    a[k] := a[k].(y := a[k].y + b.y);
  }

  /** a -= b */
  method SubInto(a: array<Vec2>, k: nat, b: Vec2)
    requires k < a.Length
    modifies a
    ensures a[..] == old(a[..])[k := Sub(old(a[k]), b)]
  {
    a[k] := a[k].(x := a[k].x - b.x);
    a[k] := a[k].(y := a[k].y - b.y);
  }

  /** a *= b */
  method MulInto(a: array<Vec2>, k: nat, b: real)
    requires k < a.Length
    modifies a
    ensures a[..] == old(a[..])[k := Scale(old(a[k]), b)]
  {
    ghost var v := a[k];
    a[k] := a[k].(x := a[k].x * b);
    a[k] := a[k].(y := a[k].y * b);
    assert a[k] == Scale(v, b);
  }

  /** a /= b */
  method DivInto(a: array<Vec2>, k: nat, b: real)
    requires k < a.Length && b != 0.0
    modifies a
    ensures a[..] == old(a[..])[k := Div(old(a[k]), b)]
  {
    a[k] := a[k].(x := a[k].x / b);
    a[k] := a[k].(y := a[k].y / b);
  }
}
