# Particle-swarm warehouse placement, modelled in Dafny

This project models the optimiser of a small Rust program that places
warehouses in the plane with a particle swarm. The model covers `src/optimiser.rs`.
`src/optimizer.rs` is a line-for-line copy that names the run method
`optimize`, so the same model covers it.

- **Evaluator** (`evaluator.dfy`): points, the distance between them, and the
  decoding of a flat `x, y, x, y, ...` vector into warehouses. The fitness of a
  placement is the nearest-warehouse distance of the closest residence minus
  the nearest-warehouse distance of the worst-served store.
- **Folds** (`folds.dfy`): the `f64::min` / `f64::max` folds the evaluator uses.
- **Particles** (`particles.dfy`): a particle's position, velocity and personal
  best, and the three things done to it:
  - `Particle::new`;
  - `update_velocity`;
  - `update_position`, which clamps each coordinate into its bound and keeps a
    new personal best only on strict improvement.
- **Swarms** (`swarm.dfy`): `Swarm::new`, which seeds the global best from
  particle 0, and `Swarm::optimise`. A run is made of passes. Each pass gives
  every particle its turn in index order, and a particle sees the global best
  as the particles before it left it.
  - Every improvement of the global best emits an event carrying the new
    fitness. In the source this is the `println!` line.
  - A run returns the final swarm together with these events.
  - Each pass also records its trail, the global-best position each particle
    saw. Its events are exactly the rises in fitness along that trail.
- **Placement** (`placement.dfy`): the run `src/main.rs` sets up.
  - It takes the number of warehouses and one `x` range and one `y` range.
  - It builds one `x` bound and one `y` bound per warehouse.
  - It plugs the warehouse fitness into the swarm, optimises, and decodes the
    global-best position back into warehouses.
  - Every returned warehouse lies in the box the two ranges span.

Modelling choices:
- Numbers are `real`.
- The distance is a parameter.
  - `IsEuclidean` characterises the Euclidean distance: the non-negative
    number whose square is the sum of squared differences.
  - From that, `EuclideanIsDistance` proves the properties the fitness relies
    on: non-negative, zero between a point and itself, and symmetric.
- Inside the particle and swarm modules the fitness is an abstract partial
  function `seq<real> --> real`.
- Every random number is an input, constrained to the range it is drawn from:
  - positions are drawn from `[lo, hi]`;
  - initial velocities are drawn from `[-1, 1]`;
  - the two velocity factors are drawn from `[0, 1)`, fresh for every dimension.
- Every situation where the source panics, or produces a meaningless
  infinite or NaN value, becomes a precondition:
  - an odd-length position;
  - an empty list of stores, of residences or of warehouses;
  - `lo > hi`;
  - zero particles;
  - a global best shorter than the velocity.

One might expect the global best always to be the best personal best so far.
The code does not guarantee that: it seeds the global best from particle 0
only. `Swarms.SeedCanLag` shows that the seed is strictly below the best
personal best whenever a later particle starts out better. Once one whole
pass has run, the global best does equal the best personal best
(`Swarms.Optimise`). The model follows the code.

## Model

| member | source | states |
|---|---|---|
| Evaluator.EuclideanIsDistance | src/optimiser.rs:9-11 | the square root of the sum of squared coordinate differences is non-negative, zero between a point and itself, and symmetric |
| Evaluator.Decode | src/optimiser.rs:14-17 | an even-length vector of length 2n decodes to n warehouses, and warehouse k is `(pos[2k], pos[2k+1])` |
| Evaluator.DecodeEncode | src/optimiser.rs:14-17 | decoding the flattening of any list of warehouses gives that list back |
| Evaluator.EncodeDecode | src/optimiser.rs:14-17 | flattening the decoding of an even-length vector gives that vector back, so no coordinate is lost or reordered |
| Folds.Min | src/optimiser.rs:25 | `f64::min` returns one of its arguments, and that argument is no larger than the other |
| Folds.Max | src/optimiser.rs:43 | `f64::max` returns one of its arguments, and that argument is no smaller than the other |
| Folds.MinOf | src/optimiser.rs:39 | the `min` fold over a non-empty sequence is at most every element and equals one of them |
| Folds.MaxOf | src/optimiser.rs:40-43 | the `max` fold over a non-empty sequence is at least every element and equals one of them |
| Evaluator.Nearest | src/optimiser.rs:21-26 | a point's nearest-warehouse distance is at most its distance to every warehouse and is attained by some warehouse |
| Evaluator.WorstStore | src/optimiser.rs:40-43 | the store term is at least every store's nearest-warehouse distance and equals one of them |
| Evaluator.ClosestResidential | src/optimiser.rs:29-39 | the residential term is at most every residence's nearest-warehouse distance and equals one of them |
| Evaluator.Fitness | src/optimiser.rs:13-44 | the fitness is at most every residence's nearest distance minus every store's nearest distance, and some residence/store pair attains it |
| Evaluator.NearestOnWarehouse | src/optimiser.rs:21-26 | a point that coincides with a warehouse has nearest-warehouse distance zero |
| Evaluator.WorstStoreOnWarehouses | src/optimiser.rs:19-27 | if every store coincides with a warehouse, the largest store distance is zero |
| Evaluator.StoresOnWarehouses | src/optimiser.rs:39-43 | if every store coincides with a warehouse, the fitness is the residential term alone |
| Particles.New | src/optimiser.rs:54-71 | a new particle has position and velocity equal to the draws, every coordinate inside its bound, every velocity in `[-1, 1]`, all lengths equal to the number of bounds, and personal best equal to its position and that position's fitness |
| Particles.UpdateVelocity | src/optimiser.rs:73-88 | each velocity becomes inertia plus memory pull plus social pull, with that dimension's own two draws; position, personal best and lengths stay unchanged |
| Particles.UpdateVelocityValid | src/optimiser.rs:73-88 | a velocity update keeps every particle invariant: positions inside bounds, stored best fitness equal to the fitness of the stored best position, current fitness at most the best |
| Particles.AtBestOnlyInertia | src/optimiser.rs:82-86 | a particle sitting on both its own best and the global best is moved by inertia alone, whatever the draws |
| Particles.Clamp | src/optimiser.rs:94 | `f64::clamp` returns a value inside `[lo, hi]`, leaves a value already inside unchanged, and maps values below `lo` to `lo` and values above `hi` to `hi` |
| Particles.ClampIsNearest | src/optimiser.rs:94 | the clamped value is the point of `[lo, hi]` nearest to the input |
| Particles.UpdatePosition | src/optimiser.rs:90-101 | every coordinate becomes its old value plus its velocity, clamped into its bound; the velocity is unchanged even when clamping cuts the step; the personal best is replaced exactly when the new fitness is strictly greater (on a tie the old best is kept), so the best fitness never decreases and is at least the current fitness |
| Particles.UpdatePositionValid | src/optimiser.rs:97-101 | a position update keeps every particle invariant |
| Swarms.MaxBest | src/optimiser.rs:156-160 | the best personal best of the swarm is at least every particle's and is some particle's |
| Swarms.New | src/optimiser.rs:127-143 | a new swarm has one particle per set of draws, starting at its drawn position with that position as its personal best, keeps the given bounds and weights, and satisfies the swarm invariant; the global best is particle 0's personal best, which is at most the best personal best |
| Swarms.SeedCanLag | src/optimiser.rs:131-134 | when a later particle starts strictly better than particle 0, the seeded global best is strictly below the best personal best |
| Swarms.Advance | src/optimiser.rs:147-154 | a particle's turn is a velocity update followed by a position update; it keeps the particle invariant and never lowers the personal best |
| Swarms.Step | src/optimiser.rs:147-160 | a turn replaces only the moving particle; the global best takes that particle's best exactly when it is strictly better and otherwise stays, and in either case it ends up at least the particle's best; an improvement emits exactly one event, the new fitness, and no improvement emits none; the swarm invariant is kept |
| Swarms.StepWitnessed | src/optimiser.rs:156-160 | a turn keeps the global best at most the best personal best |
| Swarms.ImprovingAppend | src/optimiser.rs:156-159 | two runs of strictly improving events joined end to end are again strictly improving, from the first run's start to the second run's end |
| Swarms.RisesImproving | src/optimiser.rs:156-159 | along global-best fitness levels that never decrease, the rises form a strictly increasing event log that starts above the first level and ends at the last level, and is empty exactly when nothing rose |
| Swarms.RisesExtend | src/optimiser.rs:156-159 | adding one global best to a path adds its fitness to the rises exactly when it is strictly above the previous global best, and adds nothing otherwise |
| Swarms.LoggedStep | src/optimiser.rs:147-160 | if a pass's events are the rises along its path so far, then after one more turn they are still the rises along the path extended by the new global best |
| Swarms.FrameStep | src/optimiser.rs:147-154 | after particle k's turn, the bounds, the weights, the particle count and the particles after k are unchanged, and no personal best has dropped |
| Swarms.CoveredStep | src/optimiser.rs:156-160 | after particle k's turn, the global best is at least the personal best of every particle up to k |
| Swarms.TurnsStep | src/optimiser.rs:147-160 | after particle k's turn, every earlier particle still records the turn it took, and particle k took its turn against the global best the earlier particles handed on |
| Swarms.PassSoFarStep | src/optimiser.rs:147-161 | one more turn extends a partial pass: every particle before it still records its turn, the frame is kept, the global best covers one more particle, and the events stay the rises along the trail |
| Swarms.RunPass | src/optimiser.rs:147-161 | one pass: particle j moves with draws j against the global best the particles before it left, recorded as step j of the trail, and hands on its own best if that is strictly better; bounds, weights and the particle count are unchanged; the events are exactly the rises in fitness along the trail, so they increase strictly and the last one is the new global fitness; afterwards the global best is at least every personal best, and equals the best of them if it started out as one of them |
| Swarms.HistoryAt | src/optimiser.rs:145-163 | in a run, pass u takes the swarm before it to the swarm after it as one whole pass with that pass's draws |
| Swarms.HistoryExtend | src/optimiser.rs:145-163 | appending one whole pass to a run gives a longer run, and its events are the earlier events followed by that pass's events |
| Swarms.RunSoFarStep | src/optimiser.rs:145-163 | one more whole pass from the last swarm of a run extends the run: the history gains that pass, the events gain its events and stay strictly improving, no personal best drops, and the global best covers every personal best |
| Swarms.Optimise | src/optimiser.rs:145-163 | the run is a chain of `iterations` passes from the given swarm to the returned one, pass u using draws u, and the events are each pass's events in order; the swarm invariant holds throughout, so the global fitness is always the fitness of the global position and every position stays in bounds; global and personal bests never decrease; bounds, weights and the particle count stay fixed; zero iterations change nothing and emit nothing; after at least one pass the global best is at least every personal best |
| Placement.WarehouseFitnessDefined | src/optimiser.rs:14-17 | with stores and residences present, the fitness is defined on every vector of even, non-zero length |
| Placement.WarehouseBounds | src/main.rs:32-36 | there are two bounds per warehouse, and if both ranges are well-formed then so is every bound |
| Placement.WarehouseBoundsAt | src/main.rs:32-36 | warehouse k's two coordinates are bounded by the `x` range and the `y` range, in that order |
| Placement.WithinWarehouseBounds | src/main.rs:31-36 | a flat placement lies within the per-warehouse bounds exactly when every warehouse lies in the box the `x` and `y` ranges span |
| Placement.DecodedInBox | src/main.rs:49-56 | a position within the per-warehouse bounds decodes to one warehouse per pair of bounds, each in the box, and flattening them gives the position back |
| Placement.Place | src/main.rs:38-56 | the run starts from the swarm built over the per-warehouse bounds and is a chain of `iterations` passes; the result has one warehouse per requested warehouse, each in the box, and flattens to the final global-best position; a ghost score, their fitness, records what the final global best is worth (the program itself never reads it); the events are the passes' events in order and climb from particle 0's starting fitness to that score; after at least one pass, no particle's starting placement scores higher |

## Left out

- `src/plot_results.rs`: drawing the result is file output through an external plotting library.
- `src/main.rs`:
  - its constants are left out; `Placement.Place` takes them as parameters;
  - the `as i32` conversion for plotting is left out;
  - the error printing is left out.
- The `println!` line at `src/optimiser.rs:157` is modelled as the returned event list, not as console output.
- The thread-local random generator is left out. Its draws are inputs, restricted to the ranges the source draws from.
- Floating-point behaviour is not modelled: rounding, NaN (including the NaN panic of `clamp`), and the `f64::INFINITY` / `f64::NEG_INFINITY` fold seeds. The folds are modelled on non-empty sequences, where the seed never wins.
- `sqrt` is left out: the distance is a parameter, and `IsEuclidean` characterises it.
- Evaluator.Fitness: the model has no result for an odd-length position, which panics in the source, or for empty stores, residences or warehouses, which give +∞ (no stores or no residences) or NaN (no warehouses) in the source. `Evaluable` rules these inputs out.
- Placement.WarehouseFitness: a partial function defined exactly on the placements the evaluator accepts. It carries no contract of its own; `Placement.Place` states the fitness of the result directly.
- The `usize` counts (particles, iterations) are modelled as unbounded `nat`.
- The swarm keeps `stores` and `residential` by reference. The model captures them in the fitness function the swarm is given instead.
- No claim is made about convergence or about the quality of the placement found. The source promises neither.
