/**
  The swarm: its particles, the shared bounds and weights, and the best
  position any particle has reported. `Optimise` runs whole passes over the
  particles in index order; a particle sees the global best as left by the
  particles before it in the same pass.

  Each improvement of the global best emits its new fitness (the source
  prints it); a run returns the final swarm and these events in order.
 */
module Swarms {
  import opened Folds
  import opened Particles

  datatype Swarm = Swarm(
    globalBestPosition: seq<real>,
    globalBestFitness: real,
    particles: seq<Particle>,
    bounds: seq<Bound>,
    inertia: real,
    memory: real,
    social: real)

  /** The swarm after one particle's turn, and the improvement event that turn emitted, if any. */
  datatype Turn = Turn(swarm: Swarm, events: seq<real>)

  /** Personal best fitness of each particle, in particle order. */
  function BestFitnesses(ps: seq<Particle>): seq<real> {
    seq(|ps|, j requires 0 <= j < |ps| => ps[j].bestFitness)
  }

  /** The best personal best of the swarm. */
  function MaxBest(ps: seq<Particle>): (r: real)
    requires |ps| > 0
    ensures forall j :: 0 <= j < |ps| ==> ps[j].bestFitness <= r
    ensures exists j :: 0 <= j < |ps| && r == ps[j].bestFitness
  {
    var bs := BestFitnesses(ps);
    assert forall j :: 0 <= j < |ps| ==> bs[j] == ps[j].bestFitness;
    MaxOf(bs)
  }

  /**
    What holds of the swarm throughout a run: at least one particle, sound
    bounds, a fitness defined on every vector of the right length, every
    particle valid, and the global best inside the bounds with its own
    fitness.
   */
  ghost predicate Inv(s: Swarm, fit: Fit) {
    && |s.particles| > 0
    && WellFormed(s.bounds)
    && DefinedOn(fit, |s.bounds|)
    && (forall j {:trigger Valid(s.particles[j], s.bounds, fit)} :: 0 <= j < |s.particles| ==> Valid(s.particles[j], s.bounds, fit))
    && WithinBounds(s.globalBestPosition, s.bounds)
    && s.globalBestFitness == fit(s.globalBestPosition)
  }

  /** The global best is no better than the best personal best (it was once one of them). */
  predicate Witnessed(s: Swarm)
    requires |s.particles| > 0
  {
    s.globalBestFitness <= MaxBest(s.particles)
  }

  /** Strictly increasing events, all above `from`, the last one being `to`; none iff `to == from`. */
  predicate Improving(events: seq<real>, from: real, to: real) {
    && (forall i, j :: 0 <= i < j < |events| ==> events[i] < events[j])
    && (forall i :: 0 <= i < |events| ==> from < events[i])
    && (|events| == 0 ==> to == from)
    && (|events| > 0 ==> events[|events| - 1] == to)
  }

  lemma {:induction false} ImprovingAppend(e1: seq<real>, e2: seq<real>, a: real, b: real, c: real)
    requires Improving(e1, a, b) && Improving(e2, b, c)
    ensures Improving(e1 + e2, a, c)
  {
    var e := e1 + e2;
    if |e1| > 0 {
      assert forall i :: 0 <= i < |e1| ==> e1[i] <= b by {
        forall i | 0 <= i < |e1| ensures e1[i] <= b {
          if i < |e1| - 1 {
            assert e1[i] < e1[|e1| - 1];
          }
        }
      }
    }
    forall i, j | 0 <= i < j < |e| ensures e[i] < e[j] {
      if j < |e1| {
        assert e[i] == e1[i] && e[j] == e1[j];
      } else if i < |e1| {
        assert e[i] == e1[i] && e[j] == e2[j - |e1|];
      } else {
        assert e[i] == e2[i - |e1|] && e[j] == e2[j - |e1|];
      }
    }
    if |e2| == 0 {
      assert e == e1;
    }
  }

  /**
    The improvements along a sequence of global-best fitness levels: every
    level that strictly exceeds the one before it, in order.
   */
  function Rises(levels: seq<real>): seq<real> {
    if |levels| < 2 then []
    else
      var front := levels[..|levels| - 1];
      Rises(front) + if levels[|levels| - 1] > front[|front| - 1] then [levels[|levels| - 1]] else []
  }

  /** Along levels that never decrease, the improvements form a strictly improving log from the first level to the last. */
  lemma {:induction false} RisesImproving(levels: seq<real>)
    requires |levels| > 0
    requires forall i :: 0 < i < |levels| ==> levels[i - 1] <= levels[i]
    ensures Improving(Rises(levels), levels[0], levels[|levels| - 1])
  {
    if |levels| >= 2 {
      var front := levels[..|levels| - 1];
      var last := levels[|levels| - 1];
      assert forall i :: 0 < i < |front| ==> front[i - 1] <= front[i] by {
        forall i | 0 < i < |front| ensures front[i - 1] <= front[i] {
          assert front[i - 1] == levels[i - 1] && front[i] == levels[i];
        }
      }
      RisesImproving(front);
      var step := if last > front[|front| - 1] then [last] else [];
      ImprovingAppend(Rises(front), step, levels[0], front[|front| - 1], last);
    }
  }

  /** Every position of `path` has a fitness. */
  ghost predicate DefinedAlong(fit: Fit, path: seq<seq<real>>) {
    forall i :: 0 <= i < |path| ==> fit.requires(path[i])
  }

  /** The fitness of each position of `path`, in order. */
  ghost function FitAlong(fit: Fit, path: seq<seq<real>>): seq<real>
    requires DefinedAlong(fit, path)
  {
    seq(|path|, i requires 0 <= i < |path| && DefinedAlong(fit, path) => fit(path[i]))
  }

  /** One more global best on the path adds its fitness to the log exactly when it is an improvement. */
  lemma RisesExtend(fit: Fit, path: seq<seq<real>>, x: seq<real>)
    requires |path| > 0 && DefinedAlong(fit, path) && fit.requires(x)
    ensures DefinedAlong(fit, path + [x])
    ensures Rises(FitAlong(fit, path + [x])) ==
      Rises(FitAlong(fit, path)) + if fit(x) > fit(path[|path| - 1]) then [fit(x)] else []
  {
    assert DefinedAlong(fit, path + [x]) by {
      forall i | 0 <= i < |path| + 1 ensures fit.requires((path + [x])[i]) {
        if i < |path| {
          assert (path + [x])[i] == path[i];
        }
      }
    }
    var levels := FitAlong(fit, path + [x]);
    assert levels[..|levels| - 1] == FitAlong(fit, path);
  }

  /** The log records exactly the improvements along `path`. */
  ghost predicate Logged(fit: Fit, path: seq<seq<real>>, events: seq<real>) {
    DefinedAlong(fit, path) && events == Rises(FitAlong(fit, path))
  }

  /** Particle `k`'s turn extends the path by the global best it leaves, and the log by its event. */
  lemma LoggedStep(r: Swarm, k: nat, d: VelocityDraws, fit: Fit, trail: seq<seq<real>>, events: seq<real>)
    requires Inv(r, fit) && k < |r.particles| && ValidVelocityDraws(d, |r.bounds|)
    requires Logged(fit, trail + [r.globalBestPosition], events)
    ensures var step := Step(r, k, d, fit);
      Logged(fit, (trail + [r.globalBestPosition]) + [step.swarm.globalBestPosition], events + step.events)
  {
    var step := Step(r, k, d, fit);
    var path := trail + [r.globalBestPosition];
    assert path[|path| - 1] == r.globalBestPosition;
    RisesExtend(fit, path, step.swarm.globalBestPosition);
  }

  /** The events of a whole run: the events of each pass, in order. */
  function Flatten(logs: seq<seq<real>>): seq<real>
  {
    if |logs| == 0 then [] else Flatten(logs[..|logs| - 1]) + logs[|logs| - 1]
  }

  /** Draws for one pass: one `VelocityDraws` per particle. */
  predicate ValidPassDraws(ds: seq<VelocityDraws>, particles: nat, dims: nat) {
    && |ds| == particles
    && forall k :: 0 <= k < |ds| ==> ValidVelocityDraws(ds[k], dims)
  }

  predicate ValidInits(inits: seq<InitDraws>, bounds: seq<Bound>) {
    forall k :: 0 <= k < |inits| ==> ValidInitDraws(inits[k], bounds)
  }

  /**
    `Swarm::new`: one particle per set of initial draws, and the global best
    taken from particle 0 alone (not from the best particle).
   */
  function New(
    numParticles: nat, bounds: seq<Bound>, inits: seq<InitDraws>, fit: Fit,
    inertia: real, memory: real, social: real): (s: Swarm)
    requires numParticles >= 1
    requires |inits| == numParticles && ValidInits(inits, bounds)
    requires DefinedOn(fit, |bounds|)
    ensures Inv(s, fit)
    ensures |s.particles| == numParticles
    ensures forall k :: 0 <= k < numParticles ==>
      && s.particles[k].position == inits[k].position && s.particles[k].velocity == inits[k].velocity
      && s.particles[k].bestPosition == inits[k].position
    ensures s.inertia == inertia && s.memory == memory && s.social == social
    ensures s.globalBestPosition == s.particles[0].bestPosition
    ensures s.globalBestFitness == s.particles[0].bestFitness
    ensures Witnessed(s)
    ensures s.bounds == bounds
  {
    var ps := seq(numParticles, k requires 0 <= k < numParticles => Particles.New(bounds, inits[k], fit));
    assert WellFormed(bounds) by {
      assert WithinBounds(inits[0].position, bounds);
    }
    Swarm(ps[0].bestPosition, ps[0].bestFitness, ps, bounds, inertia, memory, social)
  }

  /**
    The seed ignores the other particles: when some particle starts out
    strictly better than particle 0, the new swarm's global best is strictly
    below the best personal best.
   */
  lemma SeedCanLag(
    numParticles: nat, bounds: seq<Bound>, inits: seq<InitDraws>, fit: Fit,
    inertia: real, memory: real, social: real, k: nat)
    requires numParticles >= 1
    requires |inits| == numParticles && ValidInits(inits, bounds)
    requires DefinedOn(fit, |bounds|)
    requires k < numParticles && fit(inits[0].position) < fit(inits[k].position)
    ensures var s := New(numParticles, bounds, inits, fit, inertia, memory, social);
      s.globalBestFitness < MaxBest(s.particles)
  {
    var s := New(numParticles, bounds, inits, fit, inertia, memory, social);
    assert s.particles[k].bestFitness == fit(inits[k].position);
  }

  /**
    One particle's turn: its velocity update against `globalBest`, then its
    position update, with the swarm's weights and bounds.
   */
  function Advance(s: Swarm, p: Particle, globalBest: seq<real>, d: VelocityDraws, fit: Fit): (q: Particle)
    requires WellFormed(s.bounds) && DefinedOn(fit, |s.bounds|)
    requires Valid(p, s.bounds, fit)
    requires |globalBest| == |s.bounds|
    requires ValidVelocityDraws(d, |s.bounds|)
    ensures Valid(q, s.bounds, fit)
    ensures p.bestFitness <= q.bestFitness
  {
    var p1 := UpdateVelocity(p, globalBest, s.inertia, s.memory, s.social, d);
    UpdateVelocityValid(p, s.bounds, fit, globalBest, s.inertia, s.memory, s.social, d);
    UpdatePositionValid(p1, s.bounds, fit);
    UpdatePosition(p1, s.bounds, fit)
  }

  /**
    The body of the inner loop for particle `k`: its turn against the
    current global best, then, on strict improvement only, the global best
    takes its personal best and an event carries the new fitness.
   */
  function Step(s: Swarm, k: nat, d: VelocityDraws, fit: Fit): (r: Turn)
    requires Inv(s, fit)
    requires k < |s.particles|
    requires ValidVelocityDraws(d, |s.bounds|)
    ensures Inv(r.swarm, fit)
    ensures r.swarm.bounds == s.bounds && r.swarm.inertia == s.inertia
    ensures r.swarm.memory == s.memory && r.swarm.social == s.social
    ensures r.swarm.particles == s.particles[k := Advance(s, s.particles[k], s.globalBestPosition, d, fit)]
    ensures r.swarm.particles[k].bestFitness <= r.swarm.globalBestFitness
    ensures r.swarm.globalBestPosition ==
      if r.swarm.particles[k].bestFitness > s.globalBestFitness
      then r.swarm.particles[k].bestPosition else s.globalBestPosition
    ensures Improving(r.events, s.globalBestFitness, r.swarm.globalBestFitness)
    ensures r.events == if r.swarm.globalBestFitness > s.globalBestFitness then [r.swarm.globalBestFitness] else []
  {
    assert Valid(s.particles[k], s.bounds, fit);
    var p := Advance(s, s.particles[k], s.globalBestPosition, d, fit);
    var ps := s.particles[k := p];
    assert forall j :: 0 <= j < |ps| ==> Valid(ps[j], s.bounds, fit) by {
      forall j | 0 <= j < |ps| ensures Valid(ps[j], s.bounds, fit) {
        if j != k {
          assert ps[j] == s.particles[j];
        }
      }
    }
    var moved := s.(particles := ps);
    if p.bestFitness > s.globalBestFitness then
      Turn(moved.(globalBestFitness := p.bestFitness, globalBestPosition := p.bestPosition), [p.bestFitness])
    else
      Turn(moved, [])
  }

  /** A step keeps the global best no better than the best personal best. */
  lemma StepWitnessed(s: Swarm, k: nat, d: VelocityDraws, fit: Fit)
    requires Inv(s, fit) && Witnessed(s)
    requires k < |s.particles|
    requires ValidVelocityDraws(d, |s.bounds|)
    ensures Witnessed(Step(s, k, d, fit).swarm)
  {
    var t := Step(s, k, d, fit).swarm;
    assert Valid(s.particles[k], s.bounds, fit);
    MaxOfMonotone(BestFitnesses(s.particles), BestFitnesses(t.particles));
    assert t.particles[k].bestFitness <= MaxBest(t.particles);
  }

  /** The global-best position a trail of positions hands on after entry `j`. */
  function After(trail: seq<seq<real>>, j: nat, last: seq<real>): seq<real>
    requires j < |trail|
  {
    if j + 1 < |trail| then trail[j + 1] else last
  }

  /**
    Particle `j` of `r` is particle `j` of `s` after its turn against the
    global-best position `trail[j]`, and the global best it hands on is its
    new personal best if that strictly beats `trail[j]`, and `trail[j]`
    otherwise.
   */
  ghost predicate TookTurn(s: Swarm, r: Swarm, trail: seq<seq<real>>, ds: seq<VelocityDraws>, fit: Fit, j: nat) {
    && j < |trail| && j < |s.particles| && j < |r.particles| && j < |ds|
    && WellFormed(s.bounds) && DefinedOn(fit, |s.bounds|)
    && Valid(s.particles[j], s.bounds, fit)
    && WithinBounds(trail[j], s.bounds)
    && ValidVelocityDraws(ds[j], |s.bounds|)
    && r.particles[j] == Advance(s, s.particles[j], trail[j], ds[j], fit)
    && After(trail, j, r.globalBestPosition) ==
         if r.particles[j].bestFitness > fit(trail[j]) then r.particles[j].bestPosition else trail[j]
  }

  /**
    What a pass leaves alone up to particle `k`: bounds, weights and the
    number of particles; the particles from `k` on; and no personal best
    gets worse.
   */
  ghost predicate PassFrame(s: Swarm, r: Swarm, k: nat) {
    && r.bounds == s.bounds && |r.particles| == |s.particles|
    && r.inertia == s.inertia && r.memory == s.memory && r.social == s.social
    && (forall j :: k <= j < |s.particles| ==> r.particles[j] == s.particles[j])
    && (forall j :: 0 <= j < |s.particles| ==> s.particles[j].bestFitness <= r.particles[j].bestFitness)
  }

  /** The bounds, the weights and the particle count are those of `s`, and no personal best has dropped. */
  ghost predicate Grown(s: Swarm, r: Swarm) {
    PassFrame(s, r, |s.particles|)
  }

  /** Growth composes across passes. */
  lemma GrownTrans(s: Swarm, r: Swarm, next: Swarm)
    requires Grown(s, r) && Grown(r, next)
    ensures Grown(s, next)
  {
  }

  /** The particles before `k` have a personal best no better than the global best. */
  ghost predicate Covered(r: Swarm, k: nat) {
    forall j :: 0 <= j < k && j < |r.particles| ==> r.particles[j].bestFitness <= r.globalBestFitness
  }

  /** The particles before `k` took their turns against the global-best positions of `trail`. */
  ghost predicate Turns(s: Swarm, r: Swarm, trail: seq<seq<real>>, ds: seq<VelocityDraws>, fit: Fit, k: nat) {
    && |trail| == k
    && (k == 0 ==> r.globalBestPosition == s.globalBestPosition)
    && (k > 0 ==> trail[0] == s.globalBestPosition)
    && forall j :: 0 <= j < k ==> TookTurn(s, r, trail, ds, fit, j)
  }

  lemma FrameStep(s: Swarm, r: Swarm, ds: seq<VelocityDraws>, fit: Fit, k: nat)
    requires Inv(r, fit) && k < |r.particles| && k < |ds| && ValidVelocityDraws(ds[k], |r.bounds|)
    requires PassFrame(s, r, k)
    ensures PassFrame(s, Step(r, k, ds[k], fit).swarm, k + 1)
  {
    var t := Step(r, k, ds[k], fit).swarm;
    forall j | 0 <= j < |s.particles| ensures s.particles[j].bestFitness <= t.particles[j].bestFitness {
      assert s.particles[j].bestFitness <= r.particles[j].bestFitness;
      if j == k {
        assert Valid(r.particles[k], r.bounds, fit);
      }
    }
  }

  lemma CoveredStep(r: Swarm, ds: seq<VelocityDraws>, fit: Fit, k: nat)
    requires Inv(r, fit) && k < |r.particles| && k < |ds| && ValidVelocityDraws(ds[k], |r.bounds|)
    requires Covered(r, k)
    ensures Covered(Step(r, k, ds[k], fit).swarm, k + 1)
  {
    var t := Step(r, k, ds[k], fit).swarm;
    forall j | 0 <= j < k + 1 && j < |t.particles| ensures t.particles[j].bestFitness <= t.globalBestFitness {
      if j < k {
        assert t.particles[j] == r.particles[j];
      }
    }
  }

  /** Particle `k`'s turn adds one entry to the trail and keeps the earlier turns. */
  lemma TurnsStep(s: Swarm, r: Swarm, trail: seq<seq<real>>, ds: seq<VelocityDraws>, fit: Fit, k: nat)
    requires Inv(s, fit) && Inv(r, fit)
    requires k < |s.particles| && ValidPassDraws(ds, |s.particles|, |s.bounds|)
    requires PassFrame(s, r, k)
    requires Turns(s, r, trail, ds, fit, k)
    ensures Turns(s, Step(r, k, ds[k], fit).swarm, trail + [r.globalBestPosition], ds, fit, k + 1)
  {
    var t := Step(r, k, ds[k], fit).swarm;
    var trail' := trail + [r.globalBestPosition];
    assert r.particles[k] == s.particles[k];
    forall j | 0 <= j < k + 1 ensures TookTurn(s, t, trail', ds, fit, j) {
      if j < k {
        assert TookTurn(s, r, trail, ds, fit, j);
        assert t.particles[j] == r.particles[j];
        assert trail'[j] == trail[j];
        if j + 1 < k {
          assert trail'[j + 1] == trail[j + 1];
        }
      } else {
        assert Valid(s.particles[k], s.bounds, fit);
      }
    }
  }

  /**
    `r` is what one pass over `s` leaves: bounds and weights kept, particle
    `j` moved against `trail[j]`, the global best handed on from turn to turn
    starting at the swarm's own, and `events` holding exactly the
    improvements along that trail, one per improving turn.
   */
  ghost predicate IsPass(s: Swarm, r: Swarm, trail: seq<seq<real>>, ds: seq<VelocityDraws>, events: seq<real>, fit: Fit) {
    && r.bounds == s.bounds && |r.particles| == |s.particles|
    && r.inertia == s.inertia && r.memory == s.memory && r.social == s.social
    && |trail| == |s.particles| > 0
    && trail[0] == s.globalBestPosition
    && (forall j :: 0 <= j < |s.particles| ==> TookTurn(s, r, trail, ds, fit, j))
    && Logged(fit, trail + [r.globalBestPosition], events)
  }

  /** Particles `0..k-1` of the pass have taken their turns, starting from `s`. */
  ghost predicate PassSoFar(s: Swarm, r: Swarm, trail: seq<seq<real>>, ds: seq<VelocityDraws>, events: seq<real>, fit: Fit, k: nat) {
    && Inv(s, fit) && Inv(r, fit)
    && ValidPassDraws(ds, |s.particles|, |s.bounds|)
    && (Witnessed(s) ==> Witnessed(r))
    && PassFrame(s, r, k)
    && Covered(r, k)
    && Improving(events, s.globalBestFitness, r.globalBestFitness)
    && Turns(s, r, trail, ds, fit, k)
    && Logged(fit, trail + [r.globalBestPosition], events)
  }

  /** Particle `k`'s turn extends a pass so far by one particle. */
  lemma PassSoFarStep(s: Swarm, r: Swarm, trail: seq<seq<real>>, ds: seq<VelocityDraws>, events: seq<real>, fit: Fit, k: nat)
    requires k < |s.particles|
    requires PassSoFar(s, r, trail, ds, events, fit, k)
    ensures var step := Step(r, k, ds[k], fit);
      PassSoFar(s, step.swarm, trail + [r.globalBestPosition], ds, events + step.events, fit, k + 1)
  {
    var step := Step(r, k, ds[k], fit);
    if Witnessed(s) {
      StepWitnessed(r, k, ds[k], fit);
    }
    ImprovingAppend(events, step.events, s.globalBestFitness, r.globalBestFitness, step.swarm.globalBestFitness);
    FrameStep(s, r, ds, fit, k);
    CoveredStep(r, ds, fit, k);
    TurnsStep(s, r, trail, ds, fit, k);
    LoggedStep(r, k, ds[k], fit, trail, events);
  }

  /**
    One pass of the inner loop of `Swarm::optimise`: every particle, in index
    order, takes its turn against the global best as the particles before it
    left it (`trail` lists those global-best positions, starting from the
    swarm's own), and each improvement of the global best is logged.
   */
  method RunPass(s: Swarm, ds: seq<VelocityDraws>, fit: Fit)
    returns (r: Swarm, events: seq<real>, ghost trail: seq<seq<real>>)
    requires Inv(s, fit)
    requires ValidPassDraws(ds, |s.particles|, |s.bounds|)
    ensures Inv(r, fit)
    ensures IsPass(s, r, trail, ds, events, fit)
    ensures forall j :: 0 <= j < |s.particles| ==> s.particles[j].bestFitness <= r.particles[j].bestFitness
    ensures forall j :: 0 <= j < |r.particles| ==> r.particles[j].bestFitness <= r.globalBestFitness
    ensures Witnessed(s) ==> r.globalBestFitness == MaxBest(r.particles)
    ensures Improving(events, s.globalBestFitness, r.globalBestFitness)
  {
    r := s;
    events := [];
    trail := [];
    var k := 0;
    while k < |s.particles|
      invariant k <= |s.particles|
      invariant PassSoFar(s, r, trail, ds, events, fit, k)
    {
      var step := Step(r, k, ds[k], fit);
      PassSoFarStep(s, r, trail, ds, events, fit, k);
      trail := trail + [r.globalBestPosition];
      events := events + step.events;
      r := step.swarm;
      k := k + 1;
    }
    if Witnessed(s) {
      var j :| 0 <= j < |r.particles| && MaxBest(r.particles) == r.particles[j].bestFitness;
    }
  }

  predicate ValidRunDraws(draws: seq<seq<VelocityDraws>>, particles: nat, dims: nat) {
    forall t :: 0 <= t < |draws| ==> ValidPassDraws(draws[t], particles, dims)
  }

  /**
    A run so far: `passes` are the swarms between passes, and pass `u` takes
    `passes[u]` to `passes[u + 1]` with the draws `draws[u]` along the trail
    `trails[u]`, logging `logs[u]`.
   */
  ghost predicate History(
    passes: seq<Swarm>, trails: seq<seq<seq<real>>>, draws: seq<seq<VelocityDraws>>,
    logs: seq<seq<real>>, fit: Fit)
    decreases |trails|
  {
    && |passes| == |trails| + 1 && |logs| == |trails| && |trails| <= |draws|
    && (|trails| > 0 ==>
      var n := |trails| - 1;
      && History(passes[..n + 1], trails[..n], draws, logs[..n], fit)
      && Inv(passes[n], fit)
      && IsPass(passes[n], passes[n + 1], trails[n], draws[n], logs[n], fit))
  }

  /** Every pass of a run starts from a swarm satisfying the invariant and is a pass over its draws. */
  lemma {:induction false} HistoryAt(
    passes: seq<Swarm>, trails: seq<seq<seq<real>>>, draws: seq<seq<VelocityDraws>>,
    logs: seq<seq<real>>, fit: Fit, u: nat)
    requires History(passes, trails, draws, logs, fit)
    requires u < |trails|
    ensures Inv(passes[u], fit) && IsPass(passes[u], passes[u + 1], trails[u], draws[u], logs[u], fit)
  {
    var n := |trails| - 1;
    if u < n {
      HistoryAt(passes[..n + 1], trails[..n], draws, logs[..n], fit, u);
      assert passes[..n + 1][u] == passes[u] && passes[..n + 1][u + 1] == passes[u + 1];
    }
  }

  /** A run extended by one more pass from its last swarm. */
  lemma HistoryExtend(
    passes: seq<Swarm>, trails: seq<seq<seq<real>>>, draws: seq<seq<VelocityDraws>>,
    logs: seq<seq<real>>, fit: Fit, next: Swarm, trail: seq<seq<real>>, log: seq<real>)
    requires History(passes, trails, draws, logs, fit)
    requires |trails| < |draws|
    requires Inv(passes[|trails|], fit)
    requires IsPass(passes[|trails|], next, trail, draws[|trails|], log, fit)
    ensures History(passes + [next], trails + [trail], draws, logs + [log], fit)
    ensures Flatten(logs + [log]) == Flatten(logs) + log
  {
    var passes', trails', logs' := passes + [next], trails + [trail], logs + [log];
    assert passes'[..|trails| + 1] == passes;
    assert trails'[..|trails|] == trails;
    assert logs'[..|logs|] == logs;
  }

  /**
    The first `t` passes of a run from `s` have been made: the history so
    far ends at `r`, the events are the passes' logs in order, and once a
    pass has run the global best covers every personal best.
   */
  ghost predicate RunSoFar(
    s: Swarm, r: Swarm, draws: seq<seq<VelocityDraws>>, fit: Fit, events: seq<real>,
    passes: seq<Swarm>, trails: seq<seq<seq<real>>>, logs: seq<seq<real>>, t: nat)
  {
    && Inv(s, fit) && Inv(r, fit)
    && ValidRunDraws(draws, |s.particles|, |s.bounds|)
    && History(passes, trails, draws, logs, fit)
    && |trails| == t && passes[0] == s && passes[t] == r
    && events == Flatten(logs)
    && (Witnessed(s) ==> Witnessed(r))
    && Grown(s, r)
    && Improving(events, s.globalBestFitness, r.globalBestFitness)
    && (t > 0 ==> Covered(r, |r.particles|))
    && (t > 0 && Witnessed(s) ==> r.globalBestFitness == MaxBest(r.particles))
  }

  /** One more whole pass from the run's last swarm extends the run. */
  lemma RunSoFarStep(
    s: Swarm, r: Swarm, draws: seq<seq<VelocityDraws>>, fit: Fit, events: seq<real>,
    passes: seq<Swarm>, trails: seq<seq<seq<real>>>, logs: seq<seq<real>>, t: nat,
    next: Swarm, passEvents: seq<real>, trail: seq<seq<real>>)
    requires t < |draws|
    requires RunSoFar(s, r, draws, fit, events, passes, trails, logs, t)
    requires Inv(next, fit) && IsPass(r, next, trail, draws[t], passEvents, fit)
    requires forall j :: 0 <= j < |r.particles| ==> r.particles[j].bestFitness <= next.particles[j].bestFitness
    requires forall j :: 0 <= j < |next.particles| ==> next.particles[j].bestFitness <= next.globalBestFitness
    requires Witnessed(r) ==> next.globalBestFitness == MaxBest(next.particles)
    requires Improving(passEvents, r.globalBestFitness, next.globalBestFitness)
    ensures RunSoFar(s, next, draws, fit, events + passEvents, passes + [next], trails + [trail], logs + [passEvents], t + 1)
  {
    ImprovingAppend(events, passEvents, s.globalBestFitness, r.globalBestFitness, next.globalBestFitness);
    GrownTrans(s, r, next);
    HistoryExtend(passes, trails, draws, logs, fit, next, trail, passEvents);
    if Witnessed(s) {
      var j :| 0 <= j < |next.particles| && MaxBest(next.particles) == next.particles[j].bestFitness;
    }
  }

  /**
    `Swarm::optimise`: `iterations` passes, one set of draws each, each
    starting from the swarm the one before left (`passes`). The events are
    the passes' logs in order, strictly increasing improvements of the
    global best, so its fitness never decreases and always is the fitness of
    its position; no personal best decreases; zero iterations change
    nothing; after at least one pass the global best is at least every
    personal best, and equal to the best of them when it started out as one
    of them.
   */
  method Optimise(s: Swarm, iterations: nat, draws: seq<seq<VelocityDraws>>, fit: Fit)
    returns (r: Swarm, events: seq<real>,
             ghost passes: seq<Swarm>, ghost trails: seq<seq<seq<real>>>, ghost logs: seq<seq<real>>)
    requires Inv(s, fit)
    requires |draws| == iterations && ValidRunDraws(draws, |s.particles|, |s.bounds|)
    ensures Inv(r, fit)
    ensures History(passes, trails, draws, logs, fit)
    ensures |trails| == iterations && passes[0] == s && passes[iterations] == r
    ensures events == Flatten(logs)
    ensures r.bounds == s.bounds && |r.particles| == |s.particles|
    ensures r.inertia == s.inertia && r.memory == s.memory && r.social == s.social
    ensures forall j :: 0 <= j < |s.particles| ==> s.particles[j].bestFitness <= r.particles[j].bestFitness
    ensures Improving(events, s.globalBestFitness, r.globalBestFitness)
    ensures s.globalBestFitness <= r.globalBestFitness
    ensures iterations == 0 ==> r == s && events == []
    ensures iterations > 0 ==>
      forall j :: 0 <= j < |r.particles| ==> r.particles[j].bestFitness <= r.globalBestFitness
    ensures iterations > 0 && Witnessed(s) ==> r.globalBestFitness == MaxBest(r.particles)
  {
    r := s;
    events := [];
    passes, trails, logs := [s], [], [];
    var t := 0;
    while t < iterations
      invariant t <= iterations
      invariant RunSoFar(s, r, draws, fit, events, passes, trails, logs, t)
    {
      var next, passEvents, trail := RunPass(r, draws[t], fit);
      RunSoFarStep(s, r, draws, fit, events, passes, trails, logs, t, next, passEvents, trail);
      passes, trails, logs := passes + [next], trails + [trail], logs + [passEvents];
      events := events + passEvents;
      r := next;
      t := t + 1;
    }
  }
}
