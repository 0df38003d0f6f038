/**
 * The 2D vector arithmetic the simulation uses, over the reals, and the environment the entities
 * are simulated in.
 */
module Kinematics {

  datatype Vec = Vec(x: real, y: real) {
    function Plus(o: Vec): Vec { Vec(x + o.x, y + o.y) }
    function Minus(o: Vec): Vec { Vec(x - o.x, y - o.y) }
    function Times(k: real): Vec { Vec(x * k, y * k) }
    function SqrMagnitude(): real { x * x + y * y }
  }

  const Zero: Vec := Vec(0.0, 0.0)

  /** Linear interpolation from a (u = 0) to b (u = 1). */
  function Lerp(a: real, b: real, u: real): real { a + (b - a) * u }

  function Min(a: real, b: real): real { if a <= b then a else b }

  /**
   * What the simulation takes from outside: the fixed time step of the host, vector
   * normalisation (a square root) and the angle interpolation of two directions
   * (atan2, AngleLerp, cos and sin).
   */
  datatype Env = Env(fixedTimeStep: real, unit: Vec -> Vec, angleLerp: (Vec, Vec, real) -> Vec)

  /** The step a time query refers to: floorf(t / kFixedTimeStep), for a time that is not negative. */
  function QueryStep(env: Env, t: real): nat
    requires t >= 0.0 && env.fixedTimeStep > 0.0
  {
    (t / env.fixedTimeStep).Floor
  }
}
