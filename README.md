# N-body simulation core in Dafny

This project models the engine of a small two-dimensional N-body benchmark. The
benchmark places one heavy anchor body at the centre of a 1920 x 1080 domain and
N - 1 light orbiters around it. The orbiters are drawn from a linear-congruential
generator. It then advances the system with softened pairwise gravity and an
explicit Euler step, 500 times.

The model follows the two source files, module by module:

- `Shaping` models `clamp` and `smoothstep`: the cubic Hermite taper that fades
  a pair's force in between `min2` and `2 * min2`.
- `Lcg` models `uniform()`:
  - the generator is a class `Prng` whose field is the `static unsigned int`
    state, seeded with 30031;
  - each call advances the state by the Numerical Recipes coefficients modulo
    2^32 and returns `state / 2^32`;
  - a ghost draw counter ties the state to the k-fold iterate of the map.
- `Vector` models `vec2`:
  - the binary operators are functions;
  - the compound forms `+=`, `-=`, `*=`, `/=` are methods that update one slot
    of an array in place;
  - `length2`, `length` and `normalise` are modelled too.
- `Bodies` models the `body` record, its two constructors and the global array
  of default-constructed bodies.
- `Config` holds the constants `min2`, `G`, `dt`, `NO_STEPS`, the domain size,
  `M_PI`, and the masses and radii that `initialise()` uses.
- `Libm` supplies `sqrt`, `sin` and `cos`. These are foreign, so the caller
  passes them in as function values. `pow(x, 2.0)` is written `x * x`.
- `Pairs` models the order in which `update()` visits pairs (i, j), i < j.
  It also defines the two nested loops as folds over that order, for any step
  function.
- `Step` models `update()`:
  - the pass over one pair, as a function on accumulators;
  - the accelerations and the moved store, as functions;
  - the method `Update` over an `array<Body>`, split into its three loops:
    clearing, pair accumulation and integration.
- `Initialiser` models `initialise()`: the method over the array and the PRNG
  object, and the function describing the store it leaves.

The number of bodies is the length of the array, not the compile-time 5000.
Doubles and floats are idealised as reals. Division by zero is excluded by
preconditions:

- `update()` requires every mass to be non-zero;
- `smoothstep` requires distinct edges;
- `/` on vectors requires a non-zero divisor.

The source has no such checks, so C++ would produce infinities or NaNs in those
cases.

## Model

| member | source | states |
|---|---|---|
| Shaping.Clamp | nbody.h:14-20 | below the lower limit gives the lower limit (tested first); above the upper limit gives the upper limit; in between gives x; the result lies in the limits whenever they are ordered |
| Shaping.ClampIdempotent | nbody.h:14-20 | clamping twice to ordered limits equals clamping once |
| Shaping.ClampMonotone | nbody.h:14-20 | clamping to ordered limits preserves the order of its arguments |
| Shaping.Hermite | nbody.h:27 | the cubic t * t * (3 - 2t) that smoothstep returns; HermiteBounds and HermiteMonotone state its range and order |
| Shaping.HermiteBounds | nbody.h:27 | t^2 (3 - 2t) lies in [0, 1] for t in [0, 1] |
| Shaping.HermiteMonotone | nbody.h:27 | t^2 (3 - 2t) is non-decreasing on [0, 1] |
| Shaping.Smoothstep | nbody.h:23-28 | for edge0 < edge1: the result is in [0, 1]; it is exactly 0 for x <= edge0 and exactly 1 for x >= edge1 |
| Shaping.SmoothstepMonotone | nbody.h:23-28 | for edge0 < edge1, smoothstep is non-decreasing in x |
| Lcg.Wrap | nbody.h:41 | storing into an unsigned int keeps values below 2^32 unchanged and differs from the exact value by a multiple of 2^32 |
| Lcg.Next | nbody.h:41 | one advance of the state: (x * 1664525 + 1013904223) mod 2^32; NextAsUnsigned ties it to the unsigned arithmetic of the source |
| Lcg.Iterate | nbody.h:33-41 | the state after k draws from x; IterateAdd, IteratePair and FirstState state how it composes and where it starts |
| Lcg.NextAsUnsigned | nbody.h:41 | `x * a + c` wrapped step by step in unsigned arithmetic equals (x * 1664525 + 1013904223) mod 2^32 |
| Lcg.IterateAdd | nbody.h:33-41 | k1 draws followed by k2 draws leave the same state as k1 + k2 draws |
| Lcg.IteratePair | nbody.h:33-41 | draws 2k - 1 and 2k are the two advances that follow the state after 2(k - 1) draws |
| Lcg.FirstState | nbody.h:33-41 | the first draw from the seed 30031 leaves the state at 3756614242 |
| Lcg.ToUnit | nbody.h:44 | the returned value is state / 2^32 and lies in [0, 1) |
| Lcg.ToUnitInjective | nbody.h:44 | distinct states give distinct returned values |
| Lcg.Prng.constructor | nbody.h:33 | the state starts at 30031, with no draws made |
| Lcg.Prng.Uniform | nbody.h:31-45 | one call advances the state by exactly one LCG step; the draw count goes up by one; it returns the new state scaled to [0, 1); the state stays the draw-count iterate of the map on the seed |
| Vector.Add | nbody.h:62-64 | component-wise sum; AddSubInverse is its partner |
| Vector.Sub | nbody.h:72-74 | component-wise difference; AddSubInverse is its partner |
| Vector.Scale | nbody.h:82-84 | vector times scalar, component-wise; ScaleDivAgree relates it to the other product and to division |
| Vector.ScaleLeft | nbody.h:85-87 | scalar times vector, component-wise; ScaleDivAgree proves it equals Scale |
| Vector.Div | nbody.h:95-97 | vector divided by a non-zero scalar, component-wise; ScaleDivAgree proves Scale undoes it |
| Vector.AddSubInverse | nbody.h:62-79 | component-wise `-` undoes `+`, and `+` undoes `-` |
| Vector.ScaleDivAgree | nbody.h:82-97 | `a * s` and `s * a` agree; `a / s` is scaling by 1 / s; multiplying and dividing by the same non-zero scalar cancel |
| Vector.AddInto | nbody.h:65-69 | `a += b` leaves the left operand equal to a + b and every other slot unchanged |
| Vector.SubInto | nbody.h:75-79 | `a -= b` leaves the left operand equal to a - b and every other slot unchanged |
| Vector.MulInto | nbody.h:88-92 | `a *= b` leaves the left operand equal to a * b and every other slot unchanged |
| Vector.DivInto | nbody.h:98-102 | `a /= b` leaves the left operand equal to a / b and every other slot unchanged |
| Vector.Length2 | nbody.h:109-111 | the squared length is never negative |
| Vector.Length | nbody.h:105-107 | the square root of length2; LengthPositive and Normalise state what the step needs of it |
| Vector.LengthPositive | nbody.h:105-107 | with a square root that is positive on positive numbers, a non-zero squared length gives a positive length |
| Vector.ScaledUnitLength | nbody.h:109-111 | a direction (c, s) with c^2 + s^2 = 1, scaled by r, has squared length r^2 |
| Vector.Normalise | nbody.h:113-115 | the normalised vector scaled back by the length is the original vector |
| Bodies.MakeBody | nbody.h:133-138 | body(x, y, vx, vy, m, r): position (x, y), velocity (vx, vy), mass m and radius r; DEFAULT_BODY is body() of nbody.h:128-132 with the radius of zeroed static storage |
| Bodies.NewStore | nbody.cpp:39 | the global `body bodies[N]`: n bodies built by the default constructor of nbody.h:128-132, with zero position, velocity and mass |
| Pairs.RowShape | nbody.cpp:54 | the inner loop from j = lo to hi - 1 visits exactly (i, lo + k) at step k, hi - lo pairs in all |
| Pairs.PrefixProper | nbody.cpp:52-54 | after i outer passes, every visited pair has distinct indices below n, the smaller first, and its first index is below i |
| Pairs.PrefixIncreasing | nbody.cpp:52-54 | the visited pairs come in strictly increasing lexicographic order |
| Pairs.PrefixCount | nbody.cpp:52-54 | after i outer passes, i (2n - i - 1) / 2 pairs have been visited |
| Pairs.PrefixAt | nbody.cpp:52-54 | once row a is passed, pair (a, b) sits at the position after the earlier rows plus b - a - 1 |
| Pairs.PrefixMembers | nbody.cpp:52-54 | a pair is visited in the first i passes exactly when a < i and a < b < n, both directions |
| Pairs.AllPairsExactlyOnce | nbody.cpp:51-54 | the loops visit (a, b) exactly when a < b < n; never a body with itself; no pair twice; n (n - 1) / 2 pairs |
| Pairs.RowLoopFolds | nbody.cpp:54-76 | running the inner loop applies the pass to the pairs of its row, in visiting order |
| Pairs.LoopsFold | nbody.cpp:52-77 | the first i outer passes apply the pass to the visited pairs, in order |
| Pairs.LoopsFoldAllPairs | nbody.cpp:52-77 | both loops together apply the pass to every pair of the enumeration, in order |
| Pairs.RowLoopKeeps | nbody.cpp:54-76 | a property preserved by every pass is preserved by the inner loop |
| Pairs.LoopsKeep | nbody.cpp:52-77 | a property preserved by every pass is preserved by both loops |
| Step.Pull | nbody.cpp:67-74 | the vector added at i times m_i equals the vector subtracted at j times m_j |
| Step.ApplyPair | nbody.cpp:56-75 | keeps the length; when d2 > min2 it adds the pull at i and subtracts its partner at j, otherwise it changes nothing (the two cases are stated by ApplyPairCases) |
| Step.ApplyPairCases | nbody.cpp:56-75 | d2 <= min2 leaves the accumulator unchanged; otherwise the pull is added at i and its partner subtracted at j |
| Step.ApplyPairFrame | nbody.cpp:56-75 | a pass changes no acceleration other than those of i and j |
| Step.ApplyPairBalanced | nbody.cpp:73-74 | m_i times the change at i plus m_j times the change at j is zero (Newton's third law) |
| Step.ApplyPairImpulse | nbody.cpp:56-75 | a pass leaves the mass-weighted sum of all accelerations unchanged |
| Step.PairStep | nbody.cpp:54-76 | a pass keeps the accumulator's length |
| Step.Accelerations | nbody.cpp:44-77 | the accumulator after the clearing and pair loops has one entry per body |
| Step.AccelerationsFoldAllPairs | nbody.cpp:51-77 | the accelerations are the pass applied to every pair of the enumeration, in order, none of them passed over |
| Step.AccelerationsBalanced | nbody.cpp:51-77 | after the pair loops, the sum over all bodies of mass times acceleration is zero |
| Step.Advance | nbody.cpp:82-85 | the position moves by the velocity from before the step times dt; the velocity then moves by the acceleration times dt; mass and radius are kept |
| Step.Advanced | nbody.cpp:80-86 | the integration keeps the number of bodies; each body is moved by its own acceleration alone |
| Step.Stepped | nbody.cpp:42-87 | a step keeps the number of bodies |
| Step.SteppedKeepsBodies | nbody.cpp:42-87 | a step keeps every mass and radius, so every mass stays non-zero and the step may run again |
| Step.MomentumAfterAdvance | nbody.cpp:80-86 | the integration changes total momentum by dt times the mass-weighted accelerations |
| Step.StepConservesMomentum | nbody.cpp:42-87 | a whole step leaves the total momentum unchanged |
| Step.Update | nbody.cpp:42-87 | update() changes the store in place into the stepped store |
| Step.Clear | nbody.cpp:47-49 | the clearing loop sets every acceleration to (0, 0) |
| Step.AccumulatePairs | nbody.cpp:52-77 | the nested loops leave exactly the accelerations, with the first i passes' fold as loop invariant |
| Step.AccumulateRow | nbody.cpp:54-76 | one inner loop applies the pass for (i, i + 1), ..., (i, n - 1) to the accumulator |
| Step.ApplyPairInPlace | nbody.cpp:56-75 | the guarded `+=` / `-=` on acc[i] and acc[j] performs exactly one pass |
| Step.Integrate | nbody.cpp:80-86 | the last loop moves every body by its own acceleration, in place |
| Initialiser.AnchorAtCentre | nbody.cpp:92 | the anchor sits at (960, 540), at rest, with mass 1e15 and radius 5 |
| Initialiser.OrbitRadius | nbody.cpp:97 | a draw u in [0, 1) gives a radius in [54, 594) |
| Initialiser.Orbiter | nbody.cpp:97-102 | every orbiter has mass 1e9 and radius 2 |
| Initialiser.OrbiterGeometry | nbody.cpp:97-102 | the offset from the centre is r along the angle; the velocity is the speed along the perpendicular; velocity and offset are perpendicular whatever sin and cos return |
| Initialiser.Initial | nbody.cpp:90-104 | the initial store has as many bodies as before |
| Initialiser.OrbiterDistance | nbody.cpp:97-102 | when sin^2 + cos^2 = 1, the orbiter's squared distance from the centre is r^2, r = (u1 + 0.1) * height / 2 |
| Initialiser.OrbiterSpeed | nbody.cpp:99-102 | when sin^2 + cos^2 = 1, the orbiter's squared speed is v^2, v = sqrt(G (m0 + mi) / r) |
| Initialiser.InitialBodies | nbody.cpp:92-102 | slot 0 is the anchor; every other slot has the orbiter mass and radius; every mass is positive |
| Initialiser.InitialOrbiter | nbody.cpp:97-102 | orbiter k is offset from the centre by r along the angle of draw 2k, r from draw 2k - 1 in [54, 594), and moves perpendicular to that offset (a distance only where sin and cos satisfy sin^2 + cos^2 = 1, by OrbiterDistance) |
| Initialiser.InitialFromDefaultStore | nbody.cpp:99 | on a default-constructed store the orbiter slot still reads mass 0 when the speed is computed, so the speed uses the anchor mass alone |
| Initialiser.InitialSlot | nbody.cpp:95-102 | proof step for Initialise: the entry of Initial at slot i, unfolded to the orbiter built from draws 2i - 1 and 2i |
| Initialiser.Initialise | nbody.cpp:90-104 | the generator advances exactly 2 (N - 1) times; the store becomes the initial store, built from the generator state before the call |
| Initialiser.PlaceOrbiter | nbody.cpp:96-102 | one loop pass draws the radius and then the angle; it overwrites slot i only, reading the masses of slots 0 and i as they stood |

## Left out

- Both `main` functions are not part of this model: the window, the event loop, timing and file naming are I/O.
- `write_data`, `write_image` and `calculate_maximum_difference` are not part of this model: they are file, image and console I/O.
- IEEE float and double arithmetic is not modelled, because every quantity is an exact real. This leaves out:
  - rounding;
  - the narrowing of `d2` to `float` in `smoothstep`;
  - the `float` result of `uniform()`, which can round up to exactly 1.0.
- The bodies of `sqrt`, `sin` and `cos` are left out because they are foreign library code. They are parameters. The step relies only on `sqrt` being positive on positive numbers.
- Initialiser.OrbiterDistance and Initialiser.OrbiterSpeed: they take sin^2 + cos^2 = 1 as a hypothesis (`Libm.MathLib.Pythagorean`), since `sin` and `cos` are parameters. Initialiser.InitialOrbiter gives the offset and velocity of each slot of the initial store; these two lemmas state distance and speed for any orbiter, not for a slot of the store directly.
- Step.Update: `normalise(dx)` is computed only where `d2 > min2`, not before the test. The source's unused value for coincident bodies is a NaN, and division by zero is not modelled.
- Step.Update: requires non-zero masses, and Shaping.Smoothstep requires distinct edges. The source divides unconditionally, which gives infinities or NaNs there.
- Vector.DivInto: requires a non-zero divisor, and so does Vector.Div. In the source a zero divisor gives an infinity or NaN, which has no real counterpart.
- Vector.Normalise: the result's unit length is not proved. It would need the square root's defining property, which the parameter `lib.sqrt` does not carry.
- Step.Update: the three loops are separate methods, so that each proof stays small. `Clear` is the clearing loop, `AccumulatePairs` the outer pair loop and `Integrate` the integration loop, each called once per `update()`. Inside the pair loop, `AccumulateRow` is the inner loop, called once per outer pass, and `ApplyPairInPlace` is the inner loop's body, called once per pair. The loop structure and the order of effects are the source's.
- Initialiser.Initialise: the loop body is the separate method `PlaceOrbiter`, called once per pass. The order of effects is the source's.
- The compile-time body count of 5000 is left out: the count is the array's length.
- How accurate the physics is (orbits, energy drift) is left out: it is a numerical-analysis question, not a property of the code.
