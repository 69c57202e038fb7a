/** Which segments count, in metres and microseconds, and the odometer as the sum of them. */
module DistanceSegments {
  import opened Common
  import opened WibTime
  import opened ServiceDistance

  /** Both points on the globe, one to three hundred whole seconds apart, one of them moving, and
      at least five metres apart but no more than fifty for each second. */
  predicate Counts(metric: Metric, a: Point, b: Point) {
    var seconds := (b.receivedAt - a.receivedAt) / 1_000_000;
    var meters := metric(a.latitude, a.longitude, b.latitude, b.longitude);
    && -90.0 <= a.latitude <= 90.0 && -180.0 <= a.longitude <= 180.0
    && -90.0 <= b.latitude <= 90.0 && -180.0 <= b.longitude <= 180.0
    && 1 <= seconds <= 300
    && (a.speedKph >= 2 || b.speedKph >= 2)
    && 5.0 <= meters <= 50.0 * seconds as real
  }

  function CountedMeters(metric: Metric, a: Point, b: Point): real {
    if Counts(metric, a, b) then metric(a.latitude, a.longitude, b.latitude, b.longitude) else 0.0
  }

  /** 180 km/h is fifty metres a second. */
  lemma SpeedInMeters(meters: real, seconds: int)
    requires seconds >= 1
    ensures meters / 1000.0 / (seconds as real / 3600.0) > 180.0 <==> meters > 50.0 * seconds as real
  {
    var hours := seconds as real / 3600.0;
    var speed := meters / 1000.0 / hours;
    assert speed * hours == meters / 1000.0;
    assert hours > 0.0;
    if speed > 180.0 {
      assert (speed - 180.0) * hours > 0.0;
    } else {
      assert (180.0 - speed) * hours >= 0.0;
    }
    assert 180.0 * hours * 1000.0 == 50.0 * seconds as real;
  }

  lemma AcceptedIffCounts(metric: Metric, a: Point, b: Point)
    ensures AcceptedSegment(metric, a, b) ==
            if Counts(metric, a, b) then Some(metric(a.latitude, a.longitude, b.latitude, b.longitude)) else None
  {
    var seconds := (b.receivedAt - a.receivedAt) / 1_000_000;
    assert 1 <= GapSeconds(a, b) <= 300 <==> 1 <= seconds <= 300;
    if 1 <= seconds <= 300 {
      assert GapSeconds(a, b) == seconds;
      SpeedInMeters(metric(a.latitude, a.longitude, b.latitude, b.longitude), seconds);
    }
  }

  /** A newer point moves the checkpoint, and adds the metres of its segment to the total and to
      the row of its date if and only if the segment counts; an older one changes nothing. */
  lemma PointAddsItsSegment(metric: Metric, device: Device, point: Point)
    requires Sorted(device.daily) && device.odometer.Some?
    ensures var last, after := device.odometer.value.last, Process(metric, device, point).0;
            var added := CountedMeters(metric, last, point);
            if point.id <= last.id then after == device
            else
              && after.odometer == Some(Odometer(device.odometer.value.total + added, point))
              && Sorted(after.daily)
              && forall date :: MetersOn(after.daily, date) ==
                                MetersOn(device.daily, date) + if date == WibDate(point.receivedAt) then added else 0.0
  {
    AcceptedIffCounts(metric, device.odometer.value.last, point);
    hide AcceptedSegment, Upsert, MetersOn, Sorted, WibDate;
    if point.id > device.odometer.value.last.id && Counts(metric, device.odometer.value.last, point) {
      UpsertIsUpdate(device.daily, WibDate(point.receivedAt), CountedMeters(metric, device.odometer.value.last, point));
    }
  }

  /** The metres of the segments between consecutive points. */
  function PathMeters(metric: Metric, points: seq<Point>): real {
    if |points| < 2 then 0.0
    else
      var n := |points| - 1;
      PathMeters(metric, points[..n]) + CountedMeters(metric, points[n - 1], points[n])
  }

  /** Those that end on a date. */
  function PathMetersOn(metric: Metric, points: seq<Point>, date: int): real {
    if |points| < 2 then 0.0
    else
      var n := |points| - 1;
      PathMetersOn(metric, points[..n], date)
      + if WibDate(points[n].receivedAt) == date then CountedMeters(metric, points[n - 1], points[n]) else 0.0
  }

  lemma {:induction false} IncreasingPath(metric: Metric, points: seq<Point>)
    requires StrictlyIncreasing(points)
    ensures var device := ProcessAll(metric, EMPTY, points);
            && Sorted(device.daily)
            && (device.odometer.None? <==> points == [])
            && (points != [] ==> device.odometer == Some(Odometer(PathMeters(metric, points), points[|points| - 1])))
            && forall date :: MetersOn(device.daily, date) == PathMetersOn(metric, points, date)
    decreases |points|
  {
    TotalIsSumOfDays(metric, points);
    hide AcceptedSegment, CountedMeters, WibDate, Sorted;
    if points != [] {
      var n := |points| - 1;
      IncreasingPrefix(points);
      hide StrictlyIncreasing;
      IncreasingPath(metric, points[..n]);
      if n == 0 {
        assert points[..0] == [];
      } else {
        var before := ProcessAll(metric, EMPTY, points[..n]);
        assert points[..n][|points[..n]| - 1] == points[n - 1];
        TotalIsSumOfDays(metric, points[..n]);
        PointAddsItsSegment(metric, before, points[n]);
        hide Process, MetersOn;
      }
    }
  }

  /** Whatever arrives in whatever order, repeats included: the total is the sum, and the row of
      each date its share, of the segments that count between consecutive running maxima. */
  lemma OdometerIsCountedPath(metric: Metric, points: seq<Point>, date: int)
    ensures var maxima, device := RunningMaxima(points), ProcessAll(metric, EMPTY, points);
            && (maxima != [] ==> device.odometer == Some(Odometer(PathMeters(metric, maxima), maxima[|maxima| - 1])))
            && (maxima == [] ==> device.odometer == None)
            && MetersOn(device.daily, date) == PathMetersOn(metric, maxima, date)
  {
    hide ProcessAll, RunningMaxima, PathMeters, PathMetersOn, StrictlyIncreasing;
    LiveIsReplayOfMaxima(metric, points);
    RunningMaximaIncrease(points);
    IncreasingPath(metric, RunningMaxima(points));
  }
}
