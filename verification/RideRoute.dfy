/** The length of a ride after removing single-point GPS spikes. */
module RideRoute {

  type Coordinate = (real, real)

  type Distance = (Coordinate, Coordinate) -> real

  const SPIKE_KM := 0.08

  ghost predicate IsMetric(d: Distance) {
    && (forall a, b :: d(a, b) >= 0.0)
    && (forall a :: d(a, a) == 0.0)
    && (forall a, b, c :: d(a, c) <= d(a, b) + d(b, c))
  }

  function Max(a: real, b: real): real { if a >= b then a else b }

  /** A point far from both raw neighbours, which are themselves close together. */
  predicate IsSpike(d: Distance, previous: Coordinate, current: Coordinate, next: Coordinate) {
    && d(previous, current) > SPIKE_KM
    && d(current, next) > SPIKE_KM
    && d(previous, next) < Max(d(previous, current), d(current, next)) * 0.5
  }

  predicate Kept(d: Distance, points: seq<Coordinate>, i: nat)
    requires i < |points|
  {
    i == 0 || i == |points| - 1 || !IsSpike(d, points[i - 1], points[i], points[i + 1])
  }

  /** The kept points among the first `k`, in order. */
  function KeptAmong(d: Distance, points: seq<Coordinate>, k: nat): seq<Coordinate>
    requires k <= |points|
  {
    if k == 0 then []
    else KeptAmong(d, points, k - 1) + if Kept(d, points, k - 1) then [points[k - 1]] else []
  }

  method FilterGpsSpikeOutliers(d: Distance, points: seq<Coordinate>) returns (cleaned: seq<Coordinate>)
    ensures cleaned == KeptAmong(d, points, |points|)
  {
    if |points| < 3 {
      ShortIsKept(d, points);
      return points;
    }
    cleaned := [points[0]];
    assert KeptAmong(d, points, 1) == KeptAmong(d, points, 0) + [points[0]];
    for index := 1 to |points| - 1
      invariant cleaned == KeptAmong(d, points, index)
    {
      var previous, current, next := points[index - 1], points[index], points[index + 1];
      var isSpike := IsSpike(d, previous, current, next);
      if !isSpike {
        cleaned := cleaned + [current];
      }
    }
    cleaned := cleaned + [points[|points| - 1]];
  }

  lemma ShortIsKept(d: Distance, points: seq<Coordinate>)
    requires |points| < 3
    ensures KeptAmong(d, points, |points|) == points
  {
    if |points| >= 1 {
      assert KeptAmong(d, points, 1) == KeptAmong(d, points, 0) + [points[0]];
    }
    if |points| == 2 {
      assert KeptAmong(d, points, 2) == KeptAmong(d, points, 1) + [points[1]];
    }
  }

  /** The sum over consecutive pairs. */
  function Length(d: Distance, path: seq<Coordinate>): real {
    if |path| < 2 then 0.0
    else Length(d, path[..|path| - 1]) + d(path[|path| - 2], path[|path| - 1])
  }

  method TotalRouteDistanceKm(d: Distance, points: seq<Coordinate>) returns (km: real)
    ensures km == Length(d, KeptAmong(d, points, |points|))
  {
    var cleaned := FilterGpsSpikeOutliers(d, points);
    km := 0.0;
    if cleaned != [] {
      for i := 1 to |cleaned|
        invariant km == Length(d, cleaned[..i])
      {
        assert cleaned[..i + 1][..i] == cleaned[..i];
        km := km + d(cleaned[i - 1], cleaned[i]);
      }
      assert cleaned[..|cleaned|] == cleaned;
    }
  }

  /** `positions` pick the elements of `path` out of `points`, in order. */
  ghost predicate PicksFrom(points: seq<Coordinate>, positions: seq<nat>, path: seq<Coordinate>) {
    && |positions| == |path|
    && (forall k :: 0 <= k < |path| ==> positions[k] < |points| && points[positions[k]] == path[k])
    && (forall j, k :: 0 <= j < k < |path| ==> positions[j] < positions[k])
  }

  lemma PickOneMore(points: seq<Coordinate>, positions: seq<nat>, path: seq<Coordinate>, position: nat)
    requires PicksFrom(points, positions, path) && position < |points|
    requires forall k :: 0 <= k < |positions| ==> positions[k] < position
    ensures PicksFrom(points, positions + [position], path + [points[position]])
  {}

  /** The positions of the kept points, in order. */
  function KeptPositions(d: Distance, points: seq<Coordinate>, k: nat): seq<nat>
    requires k <= |points|
  {
    if k == 0 then []
    else KeptPositions(d, points, k - 1) + if Kept(d, points, k - 1) then [k - 1] else []
  }

  lemma {:induction false} KeptPositionsCorrect(d: Distance, points: seq<Coordinate>, k: nat, i: nat)
    requires k <= |points|
    ensures i in KeptPositions(d, points, k) <==> i < k && Kept(d, points, i)
  {
    hide Kept;
    if k > 0 {
      KeptPositionsCorrect(d, points, k - 1, i);
    }
  }

  /** The filtered points are a subsequence of the raw ones; with the lemma above, it leaves
      out exactly the spikes, each judged against its raw neighbours. */
  lemma {:induction false} FilteredIsSubsequence(d: Distance, points: seq<Coordinate>, k: nat)
    requires k <= |points|
    ensures PicksFrom(points, KeptPositions(d, points, k), KeptAmong(d, points, k))
    ensures forall j :: 0 <= j < |KeptPositions(d, points, k)| ==> KeptPositions(d, points, k)[j] < k
  {
    hide Kept, PicksFrom;
    if k == 0 {
      NothingPicked(points);
    } else {
      FilteredIsSubsequence(d, points, k - 1);
      var positions, path := KeptPositions(d, points, k - 1), KeptAmong(d, points, k - 1);
      if Kept(d, points, k - 1) {
        PickOneMore(points, positions, path, k - 1);
      } else {
        assert path + [] == path && positions + [] == positions;
      }
    }
  }

  lemma NothingPicked(points: seq<Coordinate>)
    ensures PicksFrom(points, [], [])
  {}

  lemma KeepsEnds(d: Distance, points: seq<Coordinate>)
    requires points != []
    ensures var path := KeptAmong(d, points, |points|);
            path != [] && path[0] == points[0] && path[|path| - 1] == points[|points| - 1]
  {
    KeepsFirst(d, points, |points|);
  }

  lemma {:induction false} KeepsFirst(d: Distance, points: seq<Coordinate>, k: nat)
    requires 1 <= k <= |points|
    ensures KeptAmong(d, points, k) != [] && KeptAmong(d, points, k)[0] == points[0]
  {
    if k > 1 {
      KeepsFirst(d, points, k - 1);
    } else {
      assert KeptAmong(d, points, 1) == KeptAmong(d, points, 0) + [points[0]];
    }
  }

  lemma LengthOfOneMore(d: Distance, path: seq<Coordinate>, point: Coordinate)
    requires path != []
    ensures Length(d, path + [point]) == Length(d, path) + d(path[|path| - 1], point)
  {
    assert (path + [point])[..|path|] == path;
  }

  /** Dropping points does not lengthen the route so far, even with the way back from the
      last kept point to the last raw one. */
  lemma {:induction false} FilteredSoFar(d: Distance, points: seq<Coordinate>, k: nat)
    requires IsMetric(d) && 1 <= k <= |points|
    ensures var path := KeptAmong(d, points, k);
            path != [] && Length(d, path) + d(path[|path| - 1], points[k - 1]) <= Length(d, points[..k])
  {
    hide IsSpike;
    KeepsFirst(d, points, k);
    if k == 1 {
      assert KeptAmong(d, points, 1) == KeptAmong(d, points, 0) + [points[0]];
    } else {
      FilteredSoFar(d, points, k - 1);
      var path := KeptAmong(d, points, k - 1);
      var last, previous, point := path[|path| - 1], points[k - 2], points[k - 1];
      assert points[..k] == points[..k - 1] + [point];
      LengthOfOneMore(d, points[..k - 1], point);
      assert d(last, point) <= d(last, previous) + d(previous, point);
      assert d(point, point) == 0.0;
      if Kept(d, points, k - 1) {
        LengthOfOneMore(d, path, point);
        assert KeptAmong(d, points, k) == path + [point];
      } else {
        assert path + [] == path;
      }
    }
  }

  lemma {:induction false} LengthAtLeastDirect(d: Distance, path: seq<Coordinate>)
    requires IsMetric(d) && path != []
    ensures d(path[0], path[|path| - 1]) <= Length(d, path)
  {
    if |path| > 1 {
      var init := path[..|path| - 1];
      LengthAtLeastDirect(d, init);
      assert d(path[0], path[|path| - 1]) <= d(path[0], init[|init| - 1]) + d(init[|init| - 1], path[|path| - 1]);
    }
  }

  /** The reported distance lies between the direct distance from the first point to the
      last and the length of the raw path. */
  lemma RouteWithinBounds(d: Distance, points: seq<Coordinate>)
    requires IsMetric(d) && points != []
    ensures var km := Length(d, KeptAmong(d, points, |points|));
            d(points[0], points[|points| - 1]) <= km <= Length(d, points)
  {
    KeepsEnds(d, points);
    LengthAtLeastDirect(d, KeptAmong(d, points, |points|));
    FilteredSoFar(d, points, |points|);
    assert points[..|points|] == points;
  }

  /** A point between two others is left out if and only if it lies more than eighty metres from
      each and these less than half as far from one another as it does from the farther one. */
  lemma LeftOutIffSpike(d: Distance, points: seq<Coordinate>, i: nat)
    requires 0 < i < |points| - 1
    ensures i !in KeptPositions(d, points, |points|) <==>
            && d(points[i - 1], points[i]) > 0.08 && d(points[i], points[i + 1]) > 0.08
            && (2.0 * d(points[i - 1], points[i + 1]) < d(points[i - 1], points[i])
                || 2.0 * d(points[i - 1], points[i + 1]) < d(points[i], points[i + 1]))
  {
    KeptPositionsCorrect(d, points, |points|, i);
  }

  /** A ride without jumps keeps every point, and its reported length is its own. */
  lemma {:induction false} SmoothRideIsKept(d: Distance, points: seq<Coordinate>, k: nat)
    requires k <= |points| && forall i :: 0 < i < |points| ==> d(points[i - 1], points[i]) <= 0.08
    ensures KeptAmong(d, points, k) == points[..k]
  {
    if k > 0 {
      SmoothRideIsKept(d, points, k - 1);
      assert points[..k] == points[..k - 1] + [points[k - 1]];
      if 0 < k - 1 < |points| - 1 {
        assert d(points[k - 2], points[k - 1]) <= 0.08;
      }
    }
  }
}
