/** The fixed simulation parameters of nbody.cpp, as reals where the source
    computes with them in double precision. */
module Config {

  /** The minimum squared separation below which a pair exerts no force. */
  const MIN2: real := 2.0

  /** The gravitational constant, written `1 * 10e-10` in the source: 1e-9. */
  const G: real := 1.0 * 10e-10

  /** The time increment of one step. */
  const DT: real := 0.01

  /** The number of steps the benchmark runs. */
  const NO_STEPS: nat := 500

  /** The domain (window and image) size in pixels. */
  const WIDTH: int := 1920
  const HEIGHT: int := 1080

  /** M_PI, to the digits the C library gives it. */
  const PI: real := 3.14159265358979323846

  /** The anchor body of initialise(). */
  const ANCHOR_MASS: real := 1e15
  const ANCHOR_RADIUS: real := 5.0

  /** The orbiters of initialise(). */
  const ORBITER_MASS: real := 1e9
  const ORBITER_RADIUS: real := 2.0
}
