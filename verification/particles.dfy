/**
  One particle of the swarm: its position, velocity and personal best, and
  the three things done to it (creation, velocity update, position update).

  Fitness is abstract here: a partial function on coordinate vectors. The
  random numbers the source draws from a thread-local generator are inputs.
 */
module Particles {

  /** Inclusive range `(lo, hi)` of one coordinate. */
  datatype Bound = Bound(lo: real, hi: real)

  datatype Particle = Particle(
    position: seq<real>,
    velocity: seq<real>,
    bestPosition: seq<real>,
    bestFitness: real)

  /** Fitness of a coordinate vector; it may be undefined on some vectors. */
  type Fit = seq<real> --> real

  /** Every vector of length `n` has a fitness. */
  ghost predicate DefinedOn(fit: Fit, n: nat) {
    forall x: seq<real> {:trigger fit.requires(x)} :: |x| == n ==> fit.requires(x)
  }

  /** `lo <= hi` for every bound: clamping and drawing inside it do not panic. */
  predicate WellFormed(bounds: seq<Bound>) {
    forall i :: 0 <= i < |bounds| ==> bounds[i].lo <= bounds[i].hi
  }

  /** One coordinate per bound, each inside its bound. */
  predicate WithinBounds(xs: seq<real>, bounds: seq<Bound>) {
    && |xs| == |bounds|
    && forall i :: 0 <= i < |xs| ==> bounds[i].lo <= xs[i] <= bounds[i].hi
  }

  /**
    What holds of every particle of a swarm: shapes agree with the bounds,
    position and personal best lie inside them, the stored best fitness is
    the fitness of the stored best position, and the current position is no
    better than the personal best.
   */
  ghost predicate Valid(p: Particle, bounds: seq<Bound>, fit: Fit) {
    && |p.velocity| == |bounds|
    && WithinBounds(p.position, bounds)
    && WithinBounds(p.bestPosition, bounds)
    && fit.requires(p.position)
    && fit.requires(p.bestPosition)
    && p.bestFitness == fit(p.bestPosition)
    && fit(p.position) <= p.bestFitness
  }

  /** The random values `Particle::new` draws: one position and one velocity per dimension. */
  datatype InitDraws = InitDraws(position: seq<real>, velocity: seq<real>)

  /** Positions are drawn from their inclusive bound, velocities from `[-1, 1]`. */
  predicate ValidInitDraws(d: InitDraws, bounds: seq<Bound>) {
    && WithinBounds(d.position, bounds)
    && |d.velocity| == |bounds|
    && forall i :: 0 <= i < |d.velocity| ==> -1.0 <= d.velocity[i] <= 1.0
  }

  /** The two random factors `update_velocity` draws per dimension, each in `[0, 1)`. */
  datatype VelocityDraws = VelocityDraws(memory: seq<real>, social: seq<real>)

  predicate ValidVelocityDraws(d: VelocityDraws, n: nat) {
    && |d.memory| == n
    && |d.social| == n
    && forall i :: 0 <= i < n ==> 0.0 <= d.memory[i] < 1.0 && 0.0 <= d.social[i] < 1.0
  }

  /**
    A fresh particle: position and velocity are the drawn values, and the
    personal best is the starting position with its fitness.
   */
  function New(bounds: seq<Bound>, d: InitDraws, fit: Fit): (p: Particle)
    requires ValidInitDraws(d, bounds)
    requires fit.requires(d.position)
    ensures p.position == d.position && p.velocity == d.velocity
    ensures Valid(p, bounds, fit)
    ensures forall i :: 0 <= i < |p.velocity| ==> -1.0 <= p.velocity[i] <= 1.0
    ensures p.bestPosition == p.position
    ensures p.bestFitness == fit(p.position)
  {
    Particle(d.position, d.velocity, d.position, fit(d.position))
  }

  /**
    Inertia plus a pull toward the personal best plus a pull toward the
    global best, per dimension, with fresh random factors per dimension.
   */
  function UpdateVelocity(
    p: Particle, globalBest: seq<real>,
    inertia: real, memory: real, social: real,
    d: VelocityDraws): (q: Particle)
    requires |p.position| >= |p.velocity| && |p.bestPosition| >= |p.velocity|
    requires |globalBest| >= |p.velocity|
    requires ValidVelocityDraws(d, |p.velocity|)
    ensures q.position == p.position
    ensures q.bestPosition == p.bestPosition && q.bestFitness == p.bestFitness
    ensures |q.velocity| == |p.velocity|
    ensures forall i :: 0 <= i < |q.velocity| ==>
      q.velocity[i] == inertia * p.velocity[i]
                       + memory * d.memory[i] * (p.bestPosition[i] - p.position[i])
                       + social * d.social[i] * (globalBest[i] - p.position[i])
  {
    var v := seq(|p.velocity|, i requires 0 <= i < |p.velocity| =>
      inertia * p.velocity[i]
      + memory * d.memory[i] * (p.bestPosition[i] - p.position[i])
      + social * d.social[i] * (globalBest[i] - p.position[i]));
    p.(velocity := v)
  }

  /** A velocity update keeps a valid particle valid. */
  lemma UpdateVelocityValid(
    p: Particle, bounds: seq<Bound>, fit: Fit, globalBest: seq<real>,
    inertia: real, memory: real, social: real, d: VelocityDraws)
    requires Valid(p, bounds, fit)
    requires |globalBest| >= |p.velocity|
    requires ValidVelocityDraws(d, |p.velocity|)
    ensures Valid(UpdateVelocity(p, globalBest, inertia, memory, social, d), bounds, fit)
  {
  }

  /**
    A particle that sits on its own best and on the global best feels no
    pull: only inertia acts, whatever the random factors.
   */
  lemma AtBestOnlyInertia(
    p: Particle, globalBest: seq<real>,
    inertia: real, memory: real, social: real, d: VelocityDraws)
    requires |p.position| == |p.velocity| && p.bestPosition == p.position
    requires globalBest == p.position
    requires ValidVelocityDraws(d, |p.velocity|)
    ensures UpdateVelocity(p, globalBest, inertia, memory, social, d).velocity
      == seq(|p.velocity|, i requires 0 <= i < |p.velocity| => inertia * p.velocity[i])
  {
  }

  /** `f64::clamp`: `lo` below the range, `hi` above it, `x` inside it. */
  function Clamp(x: real, lo: real, hi: real): (r: real)
    requires lo <= hi
    ensures lo <= r <= hi
    ensures lo <= x <= hi ==> r == x
    ensures x < lo ==> r == lo
    ensures hi < x ==> r == hi
  {
    if x < lo then lo else if x > hi then hi else x
  }

  function Abs(x: real): real {
    if x < 0.0 then -x else x
  }

  /** Clamping picks the point of `[lo, hi]` nearest to `x`. */
  lemma ClampIsNearest(x: real, lo: real, hi: real, y: real)
    requires lo <= hi
    requires lo <= y <= hi
    ensures Abs(Clamp(x, lo, hi) - x) <= Abs(y - x)
  {
  }

  /**
    Moves by the velocity, clamps every coordinate into its bound, and keeps
    the new position as personal best only if it is strictly better.
   */
  function UpdatePosition(p: Particle, bounds: seq<Bound>, fit: Fit): (q: Particle)
    requires |p.velocity| >= |p.position| && |bounds| >= |p.position|
    requires forall i :: 0 <= i < |p.position| ==> bounds[i].lo <= bounds[i].hi
    requires DefinedOn(fit, |p.position|)
    ensures |q.position| == |p.position|
    ensures forall i :: 0 <= i < |q.position| ==>
      q.position[i] == Clamp(p.position[i] + p.velocity[i], bounds[i].lo, bounds[i].hi)
    ensures forall i :: 0 <= i < |q.position| ==> bounds[i].lo <= q.position[i] <= bounds[i].hi
    ensures q.velocity == p.velocity
    ensures fit(q.position) > p.bestFitness ==>
      q.bestPosition == q.position && q.bestFitness == fit(q.position)
    ensures fit(q.position) <= p.bestFitness ==>
      q.bestPosition == p.bestPosition && q.bestFitness == p.bestFitness
    ensures p.bestFitness <= q.bestFitness
    ensures fit(q.position) <= q.bestFitness
  {
    var pos := seq(|p.position|, i requires 0 <= i < |p.position| =>
      Clamp(p.position[i] + p.velocity[i], bounds[i].lo, bounds[i].hi));
    var f := fit(pos);
    if f > p.bestFitness then p.(position := pos, bestPosition := pos, bestFitness := f)
    else p.(position := pos)
  }

  /** A position update keeps a valid particle valid. */
  lemma UpdatePositionValid(p: Particle, bounds: seq<Bound>, fit: Fit)
    requires Valid(p, bounds, fit)
    requires WellFormed(bounds)
    requires DefinedOn(fit, |bounds|)
    ensures Valid(UpdatePosition(p, bounds, fit), bounds, fit)
  {
  }
}
