/** initialise() (nbody.cpp): one heavy anchor at the centre of the domain and
    N - 1 orbiters placed from two generator draws each, in index order. */
module Initialiser {
  import opened Vector
  import opened Bodies
  import opened Libm
  import opened Config
  import opened Lcg
  import opened Step

  /** (width / 2, height / 2), with the integer division of the source. */
  const CENTRE: Vec2 := Vec2((WIDTH / 2) as real, (HEIGHT / 2) as real)

  /** body(width / 2, height / 2, 0, 0, 1e15, 5). */
  const ANCHOR: Body := MakeBody((WIDTH / 2) as real, (HEIGHT / 2) as real, 0.0, 0.0, ANCHOR_MASS, ANCHOR_RADIUS)

  /** The centre is (960, 540) and the anchor sits there at rest. */
  lemma AnchorAtCentre()
    ensures CENTRE == Vec2(960.0, 540.0)
    ensures ANCHOR.pos == CENTRE && ANCHOR.vel == ZERO
    ensures ANCHOR.mass == 1000000000000000.0 && ANCHOR.radius == 5.0
  {
  }

  /** r = (u + 0.1) * height / 2: at least 0.1 * height / 2 = 54 for a draw
      u >= 0, and below 1.1 * height / 2 = 594 for a draw u < 1. */
  function OrbitRadius(u: real): (r: real)
    ensures 0.0 <= u ==> 54.0 <= r
    ensures u < 1.0 ==> r < 594.0
  {
    (u + 0.1) * (HEIGHT as real) / 2.0
  }

  /** -s v (r c) + c v (r s) == 0 */
  lemma Tangential(r: real, c: real, s: real, v: real)
    ensures (-s * v) * (r * c) + (c * v) * (r * s) == 0.0
  {
    assert (-s * v) * (r * c) == -(s * v * r * c);
    assert (c * v) * (r * s) == s * v * r * c;
  }

  /** The orbiter built from a radius draw u1 and an angle draw u2. The speed
      uses the mass of the anchor slot and the mass the orbiter's own slot
      held before it was overwritten. */
  function Orbiter(u1: real, u2: real, anchorMass: real, slotMass: real, lib: MathLib): (b: Body)
    requires 0.0 <= u1
    ensures b.mass == ORBITER_MASS && b.radius == ORBITER_RADIUS
  {
    var r := OrbitRadius(u1);
    var theta := u2 * 2.0 * PI;
    var v := lib.sqrt(G * (anchorMass + slotMass) / r);
    MakeBody(CENTRE.x + r * lib.cos(theta), CENTRE.y + r * lib.sin(theta),
             -lib.sin(theta) * v, lib.cos(theta) * v, ORBITER_MASS, ORBITER_RADIUS)
  }

  /** An orbiter's offset from the centre is r along its angle, its velocity
      is the speed along the perpendicular direction (so the velocity is
      perpendicular to the offset whatever sin and cos return). */
  lemma OrbiterGeometry(u1: real, u2: real, anchorMass: real, slotMass: real, lib: MathLib)
    requires 0.0 <= u1
    ensures var b := Orbiter(u1, u2, anchorMass, slotMass, lib);
      var theta := u2 * 2.0 * PI;
      Sub(b.pos, CENTRE) == Scale(Vec2(lib.cos(theta), lib.sin(theta)), OrbitRadius(u1)) &&
      b.vel == Scale(Vec2(-lib.sin(theta), lib.cos(theta)),
                     lib.sqrt(G * (anchorMass + slotMass) / OrbitRadius(u1))) &&
      Dot(b.vel, Sub(b.pos, CENTRE)) == 0.0
  {
    var b := Orbiter(u1, u2, anchorMass, slotMass, lib);
    var r := OrbitRadius(u1);
    var theta := u2 * 2.0 * PI;
    var v := lib.sqrt(G * (anchorMass + slotMass) / r);
    assert Sub(b.pos, CENTRE) == Vec2(r * lib.cos(theta), r * lib.sin(theta));
    Tangential(r, lib.cos(theta), lib.sin(theta), v);
  }

  /** The store initialise() leaves, given the store before it and the
      generator state before it: the anchor in slot 0, and in slot k >= 1 the
      orbiter built from draws 2k - 1 and 2k. */
  function Initial(prev: seq<Body>, x0: Word32, lib: MathLib): (s: seq<Body>)
    requires 1 <= |prev|
    ensures |s| == |prev|
  {
    seq(|prev|, k requires 0 <= k < |prev| =>
      if k == 0 then ANCHOR
      else Orbiter(ToUnit(Iterate(x0, 2 * k - 1)), ToUnit(Iterate(x0, 2 * k)), ANCHOR_MASS, prev[k].mass, lib))
  }

  /** What the initial store holds: the anchor first, then orbiters with the
      orbiter mass and radius; every mass is positive, so update() may run on it. */
  lemma InitialBodies(prev: seq<Body>, x0: Word32, lib: MathLib)
    requires 1 <= |prev|
    ensures Initial(prev, x0, lib)[0] == ANCHOR
    ensures forall k :: 1 <= k < |prev| ==>
      Initial(prev, x0, lib)[k].mass == ORBITER_MASS &&
      Initial(prev, x0, lib)[k].radius == ORBITER_RADIUS
    ensures forall k :: 0 <= k < |prev| ==> 0.0 < Initial(prev, x0, lib)[k].mass
    ensures MassesNonZero(Initial(prev, x0, lib))
  {
  }

  /** Orbiter k is offset from the centre by r along the angle of draw 2k,
      where r in [54, 594) comes from draw 2k - 1, and moves perpendicular to
      that offset. */
  lemma InitialOrbiter(prev: seq<Body>, x0: Word32, lib: MathLib, k: nat)
    requires 1 <= k < |prev|
    ensures var r := OrbitRadius(ToUnit(Iterate(x0, 2 * k - 1)));
      var theta := ToUnit(Iterate(x0, 2 * k)) * 2.0 * PI;
      var b := Initial(prev, x0, lib)[k];
      54.0 <= r < 594.0 &&
      Sub(b.pos, CENTRE) == Scale(Vec2(lib.cos(theta), lib.sin(theta)), r) &&
      Dot(b.vel, Sub(b.pos, CENTRE)) == 0.0
  {
    OrbiterGeometry(ToUnit(Iterate(x0, 2 * k - 1)), ToUnit(Iterate(x0, 2 * k)), ANCHOR_MASS, prev[k].mass, lib);
  }

  /** When sin and cos satisfy sin^2 + cos^2 == 1, an orbiter lies at distance
      r = OrbitRadius(u1) from the centre, so in [54, 594) for a draw u1 in
      [0, 1). */
  lemma OrbiterDistance(u1: real, u2: real, anchorMass: real, slotMass: real, lib: MathLib)
    requires 0.0 <= u1 && lib.Pythagorean()
    ensures Length2(Sub(Orbiter(u1, u2, anchorMass, slotMass, lib).pos, CENTRE)) == OrbitRadius(u1) * OrbitRadius(u1)
  {
    var theta := u2 * 2.0 * PI;
    var c, sn := lib.cos(theta), lib.sin(theta);
    OrbiterGeometry(u1, u2, anchorMass, slotMass, lib);
    assert sn * sn + c * c == 1.0;
    ScaledUnitLength(c, sn, OrbitRadius(u1));
  }

  /** When sin and cos satisfy sin^2 + cos^2 == 1, an orbiter moves with speed
      v = sqrt(G (anchorMass + slotMass) / r), the circular-orbit speed. */
  lemma OrbiterSpeed(u1: real, u2: real, anchorMass: real, slotMass: real, lib: MathLib)
    requires 0.0 <= u1 && lib.Pythagorean()
    ensures var v := lib.sqrt(G * (anchorMass + slotMass) / OrbitRadius(u1));
      Length2(Orbiter(u1, u2, anchorMass, slotMass, lib).vel) == v * v
  {
    var theta := u2 * 2.0 * PI;
    var c, sn := lib.cos(theta), lib.sin(theta);
    OrbiterGeometry(u1, u2, anchorMass, slotMass, lib);
    assert (-sn) * (-sn) + c * c == 1.0;
    ScaledUnitLength(-sn, c, lib.sqrt(G * (anchorMass + slotMass) / OrbitRadius(u1)));
  }

  /** On a store of default-constructed bodies, as the global array is before
      the first call, each orbiter slot reads mass 0, so every orbiter's speed
      is sqrt(G * 1e15 / r): the anchor mass alone. */
  lemma InitialFromDefaultStore(prev: seq<Body>, x0: Word32, lib: MathLib, k: nat)
    requires 1 <= k < |prev| && forall m :: 0 <= m < |prev| ==> prev[m] == DEFAULT_BODY
    ensures var theta := ToUnit(Iterate(x0, 2 * k)) * 2.0 * PI;
      var r := OrbitRadius(ToUnit(Iterate(x0, 2 * k - 1)));
      Initial(prev, x0, lib)[k].vel ==
        Scale(Vec2(-lib.sin(theta), lib.cos(theta)), lib.sqrt(G * ANCHOR_MASS / r))
  {
    assert prev[k].mass == 0.0;
    assert ANCHOR_MASS + prev[k].mass == ANCHOR_MASS;
  }

  /** initialise(): write the anchor, then for each i from 1 in increasing order
      place orbiter i. The generator moves exactly 2 (N - 1) times. */
  method Initialise(bodies: array<Body>, rng: Prng, lib: MathLib)
    requires 1 <= bodies.Length && rng.Valid()
    modifies bodies, rng
    ensures rng.Valid() && rng.draws == old(rng.draws) + 2 * (bodies.Length - 1)
    ensures rng.x == Iterate(old(rng.x), 2 * (bodies.Length - 1))
    ensures bodies[..] == Initial(old(bodies[..]), old(rng.x), lib)
  {
    ghost var prev := bodies[..];
    ghost var x0 := rng.x;
    ghost var target := Initial(prev, x0, lib);
    bodies[0] := MakeBody((WIDTH / 2) as real, (HEIGHT / 2) as real, 0.0, 0.0, ANCHOR_MASS, ANCHOR_RADIUS);
    var i := 1;
    while i < bodies.Length
      invariant 1 <= i <= bodies.Length
      invariant rng.Valid() && rng.draws == old(rng.draws) + 2 * (i - 1)
      invariant rng.x == Iterate(x0, 2 * (i - 1))
      invariant bodies[0] == ANCHOR
      invariant bodies[..i] == target[..i]
      invariant bodies[i..] == prev[i..]
    {
      InitialSlot(prev, x0, lib, i);
      IteratePair(x0, i, rng.x);
      PlaceOrbiter(bodies, i, rng, lib);
      i := i + 1;
    }
  }

  /** Slot i >= 1 of the initial store is the orbiter built from draws 2i - 1
      and 2i. */
  lemma InitialSlot(prev: seq<Body>, x0: Word32, lib: MathLib, i: nat)
    requires 1 <= i < |prev|
    ensures Initial(prev, x0, lib)[i] ==
      Orbiter(ToUnit(Iterate(x0, 2 * i - 1)), ToUnit(Iterate(x0, 2 * i)), ANCHOR_MASS, prev[i].mass, lib)
  {
  }

  /** One pass of the loop of initialise(): draw the radius, draw the angle,
      and overwrite slot i with the orbiter they give, reading the masses of
      slot 0 and of slot i as they stand. */
  method PlaceOrbiter(bodies: array<Body>, i: nat, rng: Prng, lib: MathLib)
    requires 1 <= i < bodies.Length && rng.Valid()
    modifies bodies, rng
    ensures rng.Valid() && rng.draws == old(rng.draws) + 2
    ensures rng.x == Next(Next(old(rng.x)))
    ensures bodies[..] == old(bodies[..])[i := Orbiter(ToUnit(Next(old(rng.x))), ToUnit(Next(Next(old(rng.x)))),
                                                       old(bodies[0].mass), old(bodies[i].mass), lib)]
  {
    var u1 := rng.Uniform();
    var u2 := rng.Uniform();
    bodies[i] := Orbiter(u1, u2, bodies[0].mass, bodies[i].mass, lib);
  }
}
