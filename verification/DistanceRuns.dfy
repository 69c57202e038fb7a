/** When a backfill agrees with what was counted live, and runs that mix the two. */
module DistanceRuns {
  import opened WibTime
  import opened ServiceDistance

  function Ids(points: seq<Point>): seq<int> {
    seq(|points|, i requires 0 <= i < |points| => points[i].id)
  }

  /** The id arrived before, or exceeds every id that did. */
  predicate OnTime(ids: seq<int>, j: nat)
    requires j < |ids|
  {
    ids[j] in ids[..j] || forall i :: 0 <= i < j ==> ids[i] < ids[j]
  }

  /** No id arrives for the first time after a larger one. */
  predicate NoneLate(ids: seq<int>) {
    forall j :: 0 <= j < |ids| ==> OnTime(ids, j)
  }

  // ---- With no late id, the table of locations is the running maxima ----

  lemma {:induction false} StoredIsOrdered(points: seq<Point>)
    ensures StrictlyIncreasing(StoredById(points))
    ensures forall p :: p in StoredById(points) ==> p in points
  {
    hide StrictlyIncreasing, InsertById;
    if points == [] {
      assert StrictlyIncreasing([]) by { NothingIncreases(); }
    } else {
      var n := |points| - 1;
      StoredIsOrdered(points[..n]);
      InsertKeepsOrder(StoredById(points[..n]), points[n]);
    }
  }

  lemma {:induction false} StoredHasIds(points: seq<Point>, id: int)
    ensures HasId(StoredById(points), id) <==> HasId(points, id)
  {
    hide StrictlyIncreasing, InsertById, HasId;
    if points == [] {
      assert StoredById(points) == points;
    } else {
      var n := |points| - 1;
      var rows := StoredById(points[..n]);
      StoredHasIds(points[..n], id);
      StoredIsOrdered(points[..n]);
      InsertKeepsOrder(rows, points[n]);
      InsertedIds(rows, points[n], InsertById(rows, points[n]), id);
      assert points == points[..n] + [points[n]];
      AppendedIds(points[..n], points[n], id);
    }
  }

  lemma InsertedIds(rows: seq<Point>, point: Point, after: seq<Point>, id: int)
    requires forall p :: p in after <==> p in rows || (p == point && !HasId(rows, point.id))
    ensures HasId(after, id) <==> HasId(rows, id) || point.id == id
  {
    if i :| 0 <= i < |after| && after[i].id == id {
      assert after[i] in after;
    }
    if i :| 0 <= i < |rows| && rows[i].id == id {
      assert rows[i] in after;
    }
    if point.id == id && !HasId(rows, id) {
      assert point in after;
    }
  }

  lemma AppendedIds(points: seq<Point>, point: Point, id: int)
    ensures HasId(points + [point], id) <==> HasId(points, id) || point.id == id
  {
    assert (points + [point])[|points|] == point;
    if i :| 0 <= i < |points| && points[i].id == id {
      assert (points + [point])[i].id == id;
    }
  }

  lemma {:induction false} InsertPresent(rows: seq<Point>, point: Point)
    requires StrictlyIncreasing(rows) && HasId(rows, point.id)
    ensures InsertById(rows, point) == rows
  {
    var i :| 0 <= i < |rows| && rows[i].id == point.id;
    if i > 0 {
      assert rows[0].id < rows[i].id && rows[1..][i - 1].id == point.id;
      InsertPresent(rows[1..], point);
    }
  }

  /** A repeated id changes neither; an id beyond all before is appended to both. */
  lemma OneMoreOnTime(points: seq<Point>, point: Point)
    requires StoredById(points) == RunningMaxima(points)
    requires HasId(points, point.id) || AllBelow(points, point.id)
    ensures InsertById(StoredById(points), point) ==
            var maxima := RunningMaxima(points);
            if maxima != [] && point.id <= maxima[|maxima| - 1].id then maxima else maxima + [point]
  {
    StoredIsOrdered(points);
    StoredHasIds(points, point.id);
    NewMaximum(points, point.id);
    hide RunningMaxima, StoredById, InsertById, AllBelow;
    var rows := StoredById(points);
    if HasId(rows, point.id) {
      InsertPresent(rows, point);
      LastIsLargest(rows, point.id);
    } else {
      forall i | 0 <= i < |rows| ensures rows[i].id < point.id {
        assert rows[i] in rows;
        BelowAll(points, rows[i], point.id);
      }
      InsertLast(rows, point);
    }
  }

  lemma LastIsLargest(rows: seq<Point>, id: int)
    requires StrictlyIncreasing(rows) && HasId(rows, id)
    ensures rows != [] && id <= rows[|rows| - 1].id
  {
    var i :| 0 <= i < |rows| && rows[i].id == id;
    assert i == |rows| - 1 || rows[i].id < rows[|rows| - 1].id;
  }

  lemma BelowAll(points: seq<Point>, p: Point, id: int)
    requires AllBelow(points, id) && p in points
    ensures p.id < id
  {}

  lemma OnTimeMeans(points: seq<Point>)
    requires points != [] && NoneLate(Ids(points))
    ensures var n := |points| - 1;
            HasId(points[..n], points[n].id) || AllBelow(points[..n], points[n].id)
  {
    var n := |points| - 1;
    var ids := Ids(points);
    assert OnTime(ids, n);
    if ids[n] in ids[..n] {
      var i :| 0 <= i < n && ids[i] == ids[n];
      assert points[..n][i].id == points[n].id;
    } else {
      forall p | p in points[..n] ensures p.id < points[n].id {
        var i :| 0 <= i < n && points[..n][i] == p;
        assert ids[i] == p.id;
      }
    }
  }

  lemma {:induction false} StoredIsMaxima(points: seq<Point>)
    requires NoneLate(Ids(points))
    ensures StoredById(points) == RunningMaxima(points)
  {
    hide NoneLate, Ids, InsertById, HasId, AllBelow;
    if points != [] {
      var n := |points| - 1;
      PrefixNotLate(points, n);
      StoredIsMaxima(points[..n]);
      OnTimeMeans(points);
      OneMoreOnTime(points[..n], points[n]);
    }
  }

  lemma PrefixNotLate(points: seq<Point>, n: nat)
    requires n <= |points| && NoneLate(Ids(points))
    ensures NoneLate(Ids(points[..n]))
  {
    var ids := Ids(points);
    assert Ids(points[..n]) == ids[..n];
    forall j | 0 <= j < n ensures OnTime(ids[..n], j) {
      assert OnTime(ids, j);
      assert ids[..n][..j] == ids[..j];
    }
  }

  lemma BackfillAgrees(metric: Metric, points: seq<Point>)
    requires NoneLate(Ids(points))
    ensures ProcessAll(metric, EMPTY, StoredById(points)) == ProcessAll(metric, EMPTY, points)
  {
    StoredIsMaxima(points);
    LiveIsReplayOfMaxima(metric, points);
  }

  // ---- With a late id, there are points that a backfill counts anew ----

  /** Two places a hundred metres apart; only the late id moves, and later ids lie beyond. */
  function Probe(late: int, id: int): Point {
    Point(id, if id <= late then 0 else 10 * SECOND, 0.0, if id <= late then 0.0 else 1.0, if id == late then 30 else 0)
  }

  function Hundred(): Metric {
    (a, b, c, d) => if a == c && b == d then 0.0 else 100.0
  }

  predicate AllProbes(late: int, points: seq<Point>) {
    forall i :: 0 <= i < |points| ==> points[i] == Probe(late, points[i].id)
  }

  lemma ProbeSegment(late: int, a: int, b: int)
    requires a < b
    ensures AcceptedSegment(Hundred(), Probe(late, a), Probe(late, b)).UnwrapOr(0.0) == if a == late then 100.0 else 0.0
  {
    var gap := GapSeconds(Probe(late, a), Probe(late, b));
    assert gap == if a <= late < b then 10 else 0;
    assert 100.0 / 1000.0 / (10.0 / 3600.0) == 36.0;
  }

  lemma {:induction false} TotalOfProbes(late: int, points: seq<Point>)
    requires StrictlyIncreasing(points) && AllProbes(late, points) && points != []
    ensures var odometer := ProcessAll(Hundred(), EMPTY, points).odometer;
            && odometer.Some? && odometer.value.last == points[|points| - 1]
            && odometer.value.total == if HasId(points, late) && late < points[|points| - 1].id then 100.0 else 0.0
    decreases |points|
  {
    hide AcceptedSegment, Upsert, Probe;
    var n := |points| - 1;
    if n == 0 {
      assert points[..0] == [];
    } else {
      TotalOfProbes(late, points[..n]);
      assert points[n - 1] == Probe(late, points[n - 1].id) && points[n] == Probe(late, points[n].id);
      ProbeSegment(late, points[n - 1].id, points[n].id);
      assert points == points[..n] + [points[n]];
      AppendedIds(points[..n], points[n], late);
      if HasId(points[..n], late) {
        var i :| 0 <= i < n && points[..n][i].id == late;
        assert points[i].id == late;
      }
      if points[n - 1].id == late {
        assert points[..n][n - 1].id == late;
      }
    }
  }

  /** For any order of ids with a late one there are points with those ids, and a metric, such
      that live processing counts nothing and a backfill a hundred metres. */
  lemma LateIdIsCountedByBackfill(ids: seq<int>) returns (points: seq<Point>)
    requires !NoneLate(ids)
    ensures Ids(points) == ids
    ensures var live := ProcessAll(Hundred(), EMPTY, points);
            var replayed := ProcessAll(Hundred(), EMPTY, StoredById(points));
            live.odometer.Some? && replayed.odometer.Some?
            && live.odometer.value.total == 0.0 && replayed.odometer.value.total == 100.0
  {
    var j :| 0 <= j < |ids| && !OnTime(ids, j);
    var late := ids[j];
    var i :| 0 <= i < j && ids[i] >= late;
    assert ids[i] == ids[..j][i] && ids[i] > late;
    points := seq(|ids|, m requires 0 <= m < |ids| => Probe(late, ids[m]));
    assert Ids(points) == ids;
    hide ProcessAll, Probe;
    LiveMissesLate(points, late, i, j);
    ReplayCountsLate(points, late, i, j);
  }

  lemma LiveMissesLate(points: seq<Point>, late: int, i: nat, j: nat)
    requires AllProbes(late, points)
    requires i < j < |points| && points[i].id > late == points[j].id
    requires late !in Ids(points)[..j]
    ensures var live := ProcessAll(Hundred(), EMPTY, points);
            live.odometer.Some? && live.odometer.value.total == 0.0
  {
    hide ProcessAll, Probe, StrictlyIncreasing;
    var maxima := RunningMaxima(points);
    LiveIsReplayOfMaxima(Hundred(), points);
    RunningMaximaIncrease(points);
    assert points != [] && NoneAbove(points, maxima);
    hide RunningMaxima;
    forall m | 0 <= m < |maxima| ensures maxima[m] == Probe(late, maxima[m].id) && maxima[m].id != late {
      assert maxima[m] in maxima;
      RunningMaximaCorrect(points, maxima[m]);
      var k :| 0 <= k < |points| && points[k] == maxima[m] && AllBelow(points[..k], maxima[m].id);
      if k < j {
        assert Ids(points)[..j][k] == points[k].id;
      } else {
        assert points[..k][i] in points[..k];
      }
    }
    TotalOfProbes(late, maxima);
  }

  lemma ReplayCountsLate(points: seq<Point>, late: int, i: nat, j: nat)
    requires AllProbes(late, points)
    requires i < |points| && j < |points| && points[i].id > late == points[j].id
    ensures var replayed := ProcessAll(Hundred(), EMPTY, StoredById(points));
            replayed.odometer.Some? && replayed.odometer.value.total == 100.0
  {
    hide ProcessAll, Probe;
    var stored := StoredById(points);
    StoredIsOrdered(points);
    StoredHasIds(points, late);
    StoredHasIds(points, points[i].id);
    hide StoredById;
    forall m | 0 <= m < |stored| ensures stored[m] == Probe(late, stored[m].id) {
      assert stored[m] in stored;
    }
    var beyond :| 0 <= beyond < |stored| && stored[beyond].id == points[i].id;
    assert beyond == |stored| - 1 || stored[beyond].id < stored[|stored| - 1].id;
    TotalOfProbes(late, stored);
  }

  /** A backfill changes nothing, whatever the points and the metric, if and only if no id
      arrives for the first time after a larger one. */
  lemma BackfillAgreesIffNoneLate(ids: seq<int>)
    ensures (forall metric, points :: Ids(points) == ids ==>
               ProcessAll(metric, EMPTY, StoredById(points)) == ProcessAll(metric, EMPTY, points))
       <==> NoneLate(ids)
  {
    hide ProcessAll, StoredById, Ids, NoneLate;
    if NoneLate(ids) {
      forall metric, points | Ids(points) == ids
        ensures ProcessAll(metric, EMPTY, StoredById(points)) == ProcessAll(metric, EMPTY, points) {
        BackfillAgrees(metric, points);
      }
    } else {
      var points := LateIdIsCountedByBackfill(ids);
    }
  }

  // ---- Runs of arrivals and backfills ----

  datatype LocationEvent = Recorded(point: Point) | Backfilled

  /** The stored locations of a device and the rows derived from them. */
  datatype Track = Track(stored: seq<Point>, device: Device)

  function Step(metric: Metric, track: Track, event: LocationEvent): Track {
    match event
    case Recorded(point) => Track(InsertById(track.stored, point), Process(metric, track.device, point).0)
    case Backfilled => Track(track.stored, ProcessAll(metric, EMPTY, track.stored))
  }

  function Run(metric: Metric, events: seq<LocationEvent>): Track {
    if events == [] then Track([], EMPTY)
    else Step(metric, Run(metric, events[..|events| - 1]), events[|events| - 1])
  }

  /** The points a run recorded, in the order of their arrival. */
  function Recordings(events: seq<LocationEvent>): seq<Point> {
    if events == [] then []
    else
      var last := events[|events| - 1];
      Recordings(events[..|events| - 1]) + if last.Recorded? then [last.point] else []
  }

  ghost predicate Sound(track: Track) {
    StrictlyIncreasing(track.stored) && Consistent(track.device) && NonNegative(track.device.daily)
  }

  lemma StepKeepsSound(metric: Metric, track: Track, event: LocationEvent)
    requires Sound(track)
    ensures Sound(Step(metric, track, event))
  {
    hide StrictlyIncreasing, Consistent, NonNegative, Process, ProcessAll, InsertById;
    match event
    case Recorded(point) =>
      InsertKeepsOrder(track.stored, point);
      ProcessKeepsConsistent(metric, track.device, point);
      ProcessKeepsNonNegative(metric, track.device, point);
    case Backfilled =>
      TotalIsSumOfDays(metric, track.stored);
      RowsNonNegative(metric, track.stored);
  }

  /** Under any interleaving of arrivals, late and repeated ones included, with backfills: the
      locations stay in the order of their ids, the total is the sum of the daily rows, and no
      row is negative. */
  lemma {:induction false} RunsStaySound(metric: Metric, events: seq<LocationEvent>)
    ensures Sound(Run(metric, events))
  {
    if events == [] {
      TotalIsSumOfDays(metric, []);
    } else {
      hide Sound, Step;
      RunsStaySound(metric, events[..|events| - 1]);
      StepKeepsSound(metric, Run(metric, events[..|events| - 1]), events[|events| - 1]);
    }
  }

  /** A second backfill changes nothing, in any state at all. */
  lemma BackfillIsIdempotent(metric: Metric, track: Track)
    ensures Step(metric, Step(metric, track, Backfilled), Backfilled) == Step(metric, track, Backfilled)
  {}

  /** While no id arrives late, backfills leave no trace: a run ends where the points alone,
      processed live, would have led. */
  lemma {:induction false} BackfillsLeaveNoTrace(metric: Metric, events: seq<LocationEvent>)
    requires NoneLate(Ids(Recordings(events)))
    ensures Run(metric, events) == Track(StoredById(Recordings(events)), ProcessAll(metric, EMPTY, Recordings(events)))
  {
    hide Process, InsertById, NoneLate, Ids;
    if events != [] {
      var n := |events| - 1;
      var before, points := Recordings(events[..n]), Recordings(events);
      match events[n]
      case Recorded(point) =>
        assert points[..|points| - 1] == before && points[|points| - 1] == point;
        PrefixNotLate(points, |before|);
        BackfillsLeaveNoTrace(metric, events[..n]);
      case Backfilled =>
        assert points == before;
        BackfillsLeaveNoTrace(metric, events[..n]);
        BackfillAgrees(metric, before);
    }
  }
}
