// Particle types, the property registry and the per-instance particle record.

module Particles {

  /** The particle types of the engine (PARTICLE_NONE, PARTICLE_SAND, PARTICLE_WATER). */
  datatype ParticleType = None | Sand | Water

  /** The coarse physical state that selects a movement rule. */
  datatype State = Solid | Powder | Liquid | Gas

  /** One row of the property table: state class, density and viscosity. */
  datatype Properties = Properties(state: State, density: real, viscosity: real)

  /** The read-only property table, looked up by type. Its contents are not part of
      the model; only the hypothesis below is assumed about it. */
  type Registry = ParticleType -> Properties

  /** Viscosities lie in [0, 1]. */
  predicate WellFormedRegistry(props: Registry)
  {
    forall t: ParticleType :: 0.0 <= props(t).viscosity <= 1.0
  }

  /** A live particle instance: its type, its velocity and the flag that marks it
      as already updated in the current tick. The colour is rendering data only. */
  datatype Particle = Particle(kind: ParticleType, vx: real, vy: real, updated: bool)

  /** A fresh particle: zero velocity and not yet updated in this tick. */
  function NewParticle(t: ParticleType): (p: Particle)
    ensures p.kind == t && p.vx == 0.0 && p.vy == 0.0 && !p.updated
  {
    Particle(t, 0.0, 0.0, false)
  }
}
