/**
  The fitness evaluator: points, the distance between them, the decoding of
  a flat coordinate vector into warehouses, and the score of a placement.
 */
module Evaluator {
  import opened Folds

  /** A point of the plane (the `Xy` record). */
  datatype Point = Point(x: real, y: real)

  /** A distance function between points; which one is fixed by a predicate. */
  type Distance = (Point, Point) -> real

  function SquaredDistance(a: Point, b: Point): real {
    (a.x - b.x) * (a.x - b.x) + (a.y - b.y) * (a.y - b.y)
  }

  /**
    `dist` is the Euclidean distance: the non-negative number whose square is
    the sum of the squared coordinate differences, i.e. its square root.
   */
  ghost predicate IsEuclidean(dist: Distance) {
    forall a, b :: 0.0 <= dist(a, b) && dist(a, b) * dist(a, b) == SquaredDistance(a, b)
  }

  /** What the fitness relies on: non-negative, zero on a point and itself, symmetric. */
  ghost predicate IsDistance(dist: Distance) {
    && (forall a, b :: 0.0 <= dist(a, b))
    && (forall p :: dist(p, p) == 0.0)
    && (forall a, b :: dist(a, b) == dist(b, a))
  }

  /** Squaring is strictly increasing on the non-negative reals. */
  lemma SquareStrictlyIncreasing(u: real, v: real)
    requires 0.0 <= u < v
    ensures u * u < v * v
  {
    var low, mid, high := u * u, u * v, v * v;
    assert low <= mid;
    assert mid < high;
  }

  /** Non-negative reals with equal squares are equal. */
  lemma SquareRootUnique(u: real, v: real)
    requires 0.0 <= u && 0.0 <= v
    requires u * u == v * v
    ensures u == v
  {
    if u < v {
      SquareStrictlyIncreasing(u, v);
    } else if v < u {
      SquareStrictlyIncreasing(v, u);
    }
  }

  /** The square root of a sum of squares is a distance in the sense the fitness needs. */
  lemma EuclideanIsDistance(dist: Distance)
    requires IsEuclidean(dist)
    ensures IsDistance(dist)
  {
    forall p ensures dist(p, p) == 0.0 {
      assert SquaredDistance(p, p) == 0.0;
      SquareRootUnique(dist(p, p), 0.0);
    }
    forall a, b ensures dist(a, b) == dist(b, a) {
      assert SquaredDistance(a, b) == SquaredDistance(b, a);
      SquareRootUnique(dist(a, b), dist(b, a));
    }
  }

  /**
    Splits a flat coordinate vector into consecutive `(x, y)` pairs. An odd
    length has no decoding (the last chunk would have no `y`).
   */
  function Decode(pos: seq<real>): (ws: seq<Point>)
    requires |pos| % 2 == 0
    ensures |ws| == |pos| / 2
    ensures forall k :: 0 <= k < |ws| ==> ws[k] == Point(pos[2 * k], pos[2 * k + 1])
  {
    if |pos| == 0 then []
    else [Point(pos[0], pos[1])] + Decode(pos[2..])
  }

  /** Flattens points into `x, y, x, y, ...`: the layout `Decode` reads. */
  function Encode(ws: seq<Point>): (pos: seq<real>)
    ensures |pos| == 2 * |ws|
    ensures forall k :: 0 <= k < |ws| ==> pos[2 * k] == ws[k].x && pos[2 * k + 1] == ws[k].y
  {
    if |ws| == 0 then []
    else [ws[0].x, ws[0].y] + Encode(ws[1..])
  }

  lemma DecodeEncode(ws: seq<Point>)
    ensures Decode(Encode(ws)) == ws
  {
  }

  lemma {:induction false} EncodeDecode(pos: seq<real>)
    requires |pos| % 2 == 0
    ensures Encode(Decode(pos)) == pos
  {
    if |pos| > 0 {
      var ws := Decode(pos);
      assert ws == [Point(pos[0], pos[1])] + Decode(pos[2..]);
      assert ws[1..] == Decode(pos[2..]);
      EncodeDecode(pos[2..]);
      assert pos == [pos[0], pos[1]] + pos[2..];
    }
  }

  /** Distance from each warehouse to `p`, in warehouse order. */
  function Distances(dist: Distance, ws: seq<Point>, p: Point): seq<real> {
    seq(|ws|, k requires 0 <= k < |ws| => dist(ws[k], p))
  }

  /** Distance from `p` to its nearest warehouse. */
  function Nearest(dist: Distance, ws: seq<Point>, p: Point): (r: real)
    requires |ws| > 0
    ensures forall k :: 0 <= k < |ws| ==> r <= dist(ws[k], p)
    ensures exists k :: 0 <= k < |ws| && r == dist(ws[k], p)
  {
    var ds := Distances(dist, ws, p);
    assert forall k :: 0 <= k < |ws| ==> ds[k] == dist(ws[k], p);
    MinOf(ds)
  }

  /** Nearest-warehouse distance of each point, in point order. */
  function NearestEach(dist: Distance, ws: seq<Point>, ps: seq<Point>): seq<real>
    requires |ws| > 0
  {
    seq(|ps|, i requires 0 <= i < |ps| => Nearest(dist, ws, ps[i]))
  }

  /** The store worst served by its nearest warehouse. */
  function WorstStore(dist: Distance, ws: seq<Point>, stores: seq<Point>): (r: real)
    requires |ws| > 0 && |stores| > 0
    ensures forall j :: 0 <= j < |stores| ==> Nearest(dist, ws, stores[j]) <= r
    ensures exists j :: 0 <= j < |stores| && r == Nearest(dist, ws, stores[j])
  {
    var ns := NearestEach(dist, ws, stores);
    assert forall j :: 0 <= j < |stores| ==> ns[j] == Nearest(dist, ws, stores[j]);
    MaxOf(ns)
  }

  /** The residence closest to any warehouse. */
  function ClosestResidential(dist: Distance, ws: seq<Point>, residential: seq<Point>): (r: real)
    requires |ws| > 0 && |residential| > 0
    ensures forall i :: 0 <= i < |residential| ==> r <= Nearest(dist, ws, residential[i])
    ensures exists i :: 0 <= i < |residential| && r == Nearest(dist, ws, residential[i])
  {
    var ns := NearestEach(dist, ws, residential);
    assert forall i :: 0 <= i < |residential| ==> ns[i] == Nearest(dist, ws, residential[i]);
    MinOf(ns)
  }

  /** Fitness precondition: a decodable, non-empty placement and non-empty point sets. */
  predicate Evaluable(pos: seq<real>, stores: seq<Point>, residential: seq<Point>) {
    |pos| % 2 == 0 && |pos| > 0 && |stores| > 0 && |residential| > 0
  }

  /**
    The fitness of a flat placement: the closest residence's nearest-warehouse
    distance minus the worst-served store's. Pair by pair, it is at most any
    residence's nearest-warehouse distance minus any store's, and some
    residence/store pair attains it.
   */
  function Fitness(dist: Distance, pos: seq<real>, stores: seq<Point>, residential: seq<Point>): (r: real)
    requires Evaluable(pos, stores, residential)
    ensures var ws := Decode(pos);
      forall i, j :: 0 <= i < |residential| && 0 <= j < |stores| ==>
        r <= Nearest(dist, ws, residential[i]) - Nearest(dist, ws, stores[j])
    ensures var ws := Decode(pos);
      exists i, j :: 0 <= i < |residential| && 0 <= j < |stores| &&
        r == Nearest(dist, ws, residential[i]) - Nearest(dist, ws, stores[j])
  {
    var ws := Decode(pos);
    var close := ClosestResidential(dist, ws, residential);
    var worst := WorstStore(dist, ws, stores);
    var i :| 0 <= i < |residential| && close == Nearest(dist, ws, residential[i]);
    var j :| 0 <= j < |stores| && worst == Nearest(dist, ws, stores[j]);
    assert close - worst == Nearest(dist, ws, residential[i]) - Nearest(dist, ws, stores[j]);
    close - worst
  }

  /** A point on a warehouse is at distance zero from its nearest warehouse. */
  lemma NearestOnWarehouse(dist: Distance, ws: seq<Point>, p: Point)
    requires IsDistance(dist)
    requires p in ws
    ensures Nearest(dist, ws, p) == 0.0
  {
    var k :| 0 <= k < |ws| && ws[k] == p;
    assert dist(ws[k], p) == 0.0;
    var m :| 0 <= m < |ws| && Nearest(dist, ws, p) == dist(ws[m], p);
    assert 0.0 <= dist(ws[m], p);
  }

  /** If every store sits on a warehouse, the worst-served store is at distance zero. */
  lemma WorstStoreOnWarehouses(dist: Distance, ws: seq<Point>, stores: seq<Point>)
    requires IsDistance(dist)
    requires |ws| > 0 && |stores| > 0
    requires forall j :: 0 <= j < |stores| ==> stores[j] in ws
    ensures WorstStore(dist, ws, stores) == 0.0
  {
    var worst := WorstStore(dist, ws, stores);
    var j :| 0 <= j < |stores| && worst == Nearest(dist, ws, stores[j]);
    NearestOnWarehouse(dist, ws, stores[j]);
  }

  /**
    When every store sits exactly on some warehouse, no store is served from
    any distance: the fitness is the residential term alone.
   */
  lemma StoresOnWarehouses(dist: Distance, pos: seq<real>, stores: seq<Point>, residential: seq<Point>)
    requires IsDistance(dist)
    requires Evaluable(pos, stores, residential)
    requires forall j :: 0 <= j < |stores| ==> stores[j] in Decode(pos)
    ensures Fitness(dist, pos, stores, residential) == ClosestResidential(dist, Decode(pos), residential)
  {
    WorstStoreOnWarehouses(dist, Decode(pos), stores);
  }
}
