/**
  The warehouse-placement run: the swarm optimises the warehouse fitness
  against fixed stores and residences, with an `(x, y)` pair of bounds per
  warehouse, and the best position found is read back as warehouses.
 */
module Placement {
  import opened Evaluator
  import opened Particles
  import opened Swarms

  /**
    The fitness the swarm optimises: the score of a flat placement against
    the given stores and residences. It is defined on every placement the
    evaluator accepts.
   */
  function WarehouseFitness(dist: Distance, stores: seq<Point>, residential: seq<Point>): Fit
  {
    pos requires Evaluable(pos, stores, residential) => Fitness(dist, pos, stores, residential)
  }

  /** With stores and residences present, the fitness is defined on every placement of some warehouses. */
  lemma WarehouseFitnessDefined(dist: Distance, stores: seq<Point>, residential: seq<Point>, n: nat)
    requires |stores| > 0 && |residential| > 0
    requires n > 0 && n % 2 == 0
    ensures DefinedOn(WarehouseFitness(dist, stores, residential), n)
  {
  }

  /** One `x` range and one `y` range per warehouse, in that order. */
  function WarehouseBounds(numWarehouses: nat, xBounds: Bound, yBounds: Bound): (bounds: seq<Bound>)
    ensures |bounds| == 2 * numWarehouses
    ensures xBounds.lo <= xBounds.hi && yBounds.lo <= yBounds.hi ==> WellFormed(bounds)
  {
    if numWarehouses == 0 then []
    else [xBounds, yBounds] + WarehouseBounds(numWarehouses - 1, xBounds, yBounds)
  }

  /** Warehouse `k`'s two coordinates are bounded by the `x` range and the `y` range, in that order. */
  lemma {:induction false} WarehouseBoundsAt(numWarehouses: nat, xBounds: Bound, yBounds: Bound, k: nat)
    requires k < numWarehouses
    ensures WarehouseBounds(numWarehouses, xBounds, yBounds)[2 * k] == xBounds
    ensures WarehouseBounds(numWarehouses, xBounds, yBounds)[2 * k + 1] == yBounds
  {
    if k > 0 {
      var rest := WarehouseBounds(numWarehouses - 1, xBounds, yBounds);
      WarehouseBoundsAt(numWarehouses - 1, xBounds, yBounds, k - 1);
      assert WarehouseBounds(numWarehouses, xBounds, yBounds) == [xBounds, yBounds] + rest;
      assert 2 * k == 2 * (k - 1) + 2;
    }
  }

  /** Every warehouse lies in the box the `x` and `y` ranges span. */
  predicate InBox(ws: seq<Point>, xBounds: Bound, yBounds: Bound) {
    forall k :: 0 <= k < |ws| ==> xBounds.lo <= ws[k].x <= xBounds.hi && yBounds.lo <= ws[k].y <= yBounds.hi
  }

  /** Bounds checks split at a common prefix length. */
  lemma WithinBoundsConcat(a: seq<real>, b: seq<real>, c: seq<Bound>, d: seq<Bound>)
    requires |a| == |c|
    ensures WithinBounds(a + b, c + d) <==> WithinBounds(a, c) && WithinBounds(b, d)
  {
    if WithinBounds(a + b, c + d) {
      forall i | 0 <= i < |a| ensures c[i].lo <= a[i] <= c[i].hi {
        assert (a + b)[i] == a[i] && (c + d)[i] == c[i];
      }
      forall i | 0 <= i < |b| ensures d[i].lo <= b[i] <= d[i].hi {
        assert (a + b)[|a| + i] == b[i] && (c + d)[|a| + i] == d[i];
      }
    }
    if WithinBounds(a, c) && WithinBounds(b, d) {
      forall i | 0 <= i < |a + b| ensures (c + d)[i].lo <= (a + b)[i] <= (c + d)[i].hi {
        if i >= |a| {
          assert (a + b)[i] == b[i - |a|] && (c + d)[i] == d[i - |a|];
        }
      }
    }
  }

  /**
    A flat placement lies within the per-warehouse bounds exactly when every
    warehouse lies in the box the `x` and `y` ranges span.
   */
  lemma {:induction false} WithinWarehouseBounds(ws: seq<Point>, xBounds: Bound, yBounds: Bound)
    ensures WithinBounds(Encode(ws), WarehouseBounds(|ws|, xBounds, yBounds)) <==> InBox(ws, xBounds, yBounds)
  {
    if |ws| > 0 {
      var head, tail := [ws[0].x, ws[0].y], ws[1..];
      assert Encode(ws) == head + Encode(tail);
      assert WarehouseBounds(|ws|, xBounds, yBounds) == [xBounds, yBounds] + WarehouseBounds(|tail|, xBounds, yBounds);
      WithinBoundsConcat(head, Encode(tail), [xBounds, yBounds], WarehouseBounds(|tail|, xBounds, yBounds));
      WithinWarehouseBounds(tail, xBounds, yBounds);
      assert InBox(ws, xBounds, yBounds) <==>
        (xBounds.lo <= ws[0].x <= xBounds.hi && yBounds.lo <= ws[0].y <= yBounds.hi) && InBox(tail, xBounds, yBounds) by {
        if InBox(tail, xBounds, yBounds) && xBounds.lo <= ws[0].x <= xBounds.hi && yBounds.lo <= ws[0].y <= yBounds.hi {
          forall k | 0 <= k < |ws| ensures xBounds.lo <= ws[k].x <= xBounds.hi && yBounds.lo <= ws[k].y <= yBounds.hi {
            if k > 0 {
              assert ws[k] == tail[k - 1];
            }
          }
        }
      }
    }
  }

  /** A position within the per-warehouse bounds decodes to that many warehouses, each in the box. */
  lemma DecodedInBox(pos: seq<real>, numWarehouses: nat, xBounds: Bound, yBounds: Bound)
    requires WithinBounds(pos, WarehouseBounds(numWarehouses, xBounds, yBounds))
    ensures |Decode(pos)| == numWarehouses
    ensures InBox(Decode(pos), xBounds, yBounds)
    ensures Encode(Decode(pos)) == pos
  {
    EncodeDecode(pos);
    WithinWarehouseBounds(Decode(pos), xBounds, yBounds);
  }

  /** The swarm `main` builds: the warehouse fitness over one `x` and one `y` range per warehouse. */
  function StartSwarm(
    dist: Distance, stores: seq<Point>, residential: seq<Point>,
    numWarehouses: nat, xBounds: Bound, yBounds: Bound,
    numParticles: nat, inits: seq<InitDraws>, inertia: real, memory: real, social: real): Swarm
    requires |stores| > 0 && |residential| > 0 && numWarehouses > 0
    requires numParticles >= 1 && |inits| == numParticles
    requires ValidInits(inits, WarehouseBounds(numWarehouses, xBounds, yBounds))
  {
    WarehouseFitnessDefined(dist, stores, residential, 2 * numWarehouses);
    Swarms.New(numParticles, WarehouseBounds(numWarehouses, xBounds, yBounds), inits,
      WarehouseFitness(dist, stores, residential), inertia, memory, social)
  }

  /**
    The run `main` sets up: one `x` and one `y` range per warehouse, the
    swarm built and optimised for `iterations` passes, and its global-best
    position decoded into warehouses. The run is the sequence of passes
    `passes` from the new swarm; every warehouse lies in the box, the
    returned score is the fitness of the returned placement, the events climb
    from the fitness of particle 0's start to that score, and after at least
    one pass no particle's starting placement scores higher.
   */
  method Place(
    dist: Distance, stores: seq<Point>, residential: seq<Point>,
    numWarehouses: nat, xBounds: Bound, yBounds: Bound,
    numParticles: nat, inits: seq<InitDraws>, iterations: nat, draws: seq<seq<VelocityDraws>>,
    inertia: real, memory: real, social: real)
    returns (warehouses: seq<Point>, ghost score: real, events: seq<real>,
             ghost passes: seq<Swarm>, ghost trails: seq<seq<seq<real>>>, ghost logs: seq<seq<real>>)
    requires |stores| > 0 && |residential| > 0 && numWarehouses > 0
    requires numParticles >= 1 && |inits| == numParticles
    requires ValidInits(inits, WarehouseBounds(numWarehouses, xBounds, yBounds))
    requires |draws| == iterations && ValidRunDraws(draws, numParticles, 2 * numWarehouses)
    ensures |warehouses| == numWarehouses
    ensures InBox(warehouses, xBounds, yBounds)
    ensures score == Fitness(dist, Encode(warehouses), stores, residential)
    ensures var fit := WarehouseFitness(dist, stores, residential);
      && History(passes, trails, draws, logs, fit) && |trails| == iterations
      && passes[0] == StartSwarm(dist, stores, residential, numWarehouses, xBounds, yBounds, numParticles, inits, inertia, memory, social)
      && Encode(warehouses) == passes[iterations].globalBestPosition
      && events == Flatten(logs)
    ensures Improving(events, Fitness(dist, inits[0].position, stores, residential), score)
    ensures iterations > 0 ==>
      forall k :: 0 <= k < numParticles ==> Fitness(dist, inits[k].position, stores, residential) <= score
  {
    var fit := WarehouseFitness(dist, stores, residential);
    var s := StartSwarm(dist, stores, residential, numWarehouses, xBounds, yBounds, numParticles, inits, inertia, memory, social);
    var r;
    r, events, passes, trails, logs := Optimise(s, iterations, draws, fit);
    DecodedInBox(r.globalBestPosition, numWarehouses, xBounds, yBounds);
    warehouses := Decode(r.globalBestPosition);
    score := r.globalBestFitness;
    if iterations > 0 {
      forall k | 0 <= k < numParticles
        ensures Fitness(dist, inits[k].position, stores, residential) <= score
      {
        assert s.particles[k].bestFitness <= r.particles[k].bestFitness;
      }
    }
  }
}
