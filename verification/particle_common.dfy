/** Shared vocabulary of the particle controller (src/scenes/ParticleSystem.js). */
module ParticleCommon {

  /** Number of particles the controller creates. */
  const ParticleCount: nat := 2000

  /** `Math.PI` as the decimal the runtime prints. */
  const Pi: real := 3.141592653589793

  datatype Vec3 = Vec3(x: real, y: real, z: real)

  datatype Rgb = Rgb(r: real, g: real, b: real)

  /** `Math.random` is modelled as the sequence of its draws: `rand(k)` is the k-th call. */
  ghost predicate UnitDraws(rand: nat -> real) {
    forall k: nat :: 0.0 <= rand(k) < 1.0
  }
}
