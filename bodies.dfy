/** The `body` record (nbody.h): position, velocity, mass and a cosmetic radius. */
module Bodies {
  import opened Vector

  datatype Body = Body(pos: Vec2, vel: Vec2, mass: real, radius: real)

  /** body(): zero position, velocity and mass. The constructor leaves the radius
      unset; the store is a global array, whose storage starts zeroed, so the
      radius reads 0. */
  const DEFAULT_BODY: Body := Body(ZERO, ZERO, 0.0, 0.0)

  /** body(x, y, vx, vy, m, r). */
  function MakeBody(x: real, y: real, vx: real, vy: real, m: real, r: real): Body
  {
    Body(Vec2(x, y), Vec2(vx, vy), m, r)
  }

  /** The declaration `body bodies[N]`: a store of n default-constructed bodies. */
  method NewStore(n: nat) returns (bodies: array<Body>)
    ensures fresh(bodies) && bodies.Length == n
    ensures forall k :: 0 <= k < n ==> bodies[k] == DEFAULT_BODY
  {
    bodies := new Body[n](_ => DEFAULT_BODY);
  }
}
