/** The simulated state of an entity at one step, and its network form. */
module EntityStates {
  import opened Base
  import opened Kinematics

  /** Who simulates an entity: the server, the owning client ahead of the server, or nobody
      (a clone that only shows states received from the server). */
  datatype EntityType = SimulatedOnServer | SimulatedLagless | Cloned

  /** An entity at the end of simulation step `step`; `actionStep` is the step its current action
      began at. */
  datatype EntityState<A> = EntityState(step: nat, position: Vec, direction: Vec, actionState: A, actionStep: nat)

  /** The four-argument constructor: facing up, with the action starting at the given step. */
  function MakeState<A>(step: nat, px: real, py: real, action: A): EntityState<A>
  {
    EntityState(step, Vec(px, py), Vec(0.0, 1.0), action, step)
  }

  /** The state as it travels: a uint8 id, 32-bit step and float bit patterns for the position,
      16-bit half floats for the direction, an 8-bit action and a 32-bit action step. */
  datatype NetEntityState = NetEntityState(
    id: byte, step: u32, x: u32, y: u32, dx: u16, dy: u16, actionState: byte, actionStep: u32)

  /** How float and half-float bit patterns, and action codes, are read as values. */
  datatype Decoders<A> = Decoders(float: u32 -> real, half: u16 -> real, action: byte -> A)

  /** The constructor from a received NetEntityState: field for field. */
  function FromNet<A>(n: NetEntityState, dec: Decoders<A>): (s: EntityState<A>)
  {
    EntityState(n.step, Vec(dec.float(n.x), dec.float(n.y)), Vec(dec.half(n.dx), dec.half(n.dy)),
                dec.action(n.actionState), n.actionStep)
  }
}
