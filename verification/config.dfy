/** The fixed game settings of the Flappy-Bird clone (Fly.py, lines 9-22).
    Only the settings the simulation reads are modelled; colours and the frame
    rate belong to the presentation layer, and PIPE_HEIGHT is read nowhere. */
module Config {

  /** Size of the play field, in pixels. */
  const ScreenWidth: int := 400
  const ScreenHeight: int := 600

  /** Obstacle geometry and speed. */
  const PipeWidth: nat := 60
  const GapSize: nat := 150
  const PipeVelocity: int := 5

  /** Player body size. */
  const BirdWidth: nat := 20
  const BirdHeight: nat := 20

  /** Velocities, in pixels per tick. */
  const Gravity: real := 0.05
  const JumpStrength: real := -2.0
  const BirdVelocity: real := 2.0
  /** The velocity set by the fast-descend key (a literal in Bird.descend). */
  const DescendVelocity: real := 5.0

  /** Jumps available before the bird must touch the floor again. */
  const MaxJumps: nat := 1000
}
