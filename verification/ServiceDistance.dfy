/** The tracked-distance odometer, its checkpoint and its daily table. */
module ServiceDistance {
  import opened Common
  import opened WibTime

  const MIN_SEGMENT_METERS := 5.0
  const MAX_POINT_GAP_SECONDS := 300
  const MAX_PLAUSIBLE_SPEED_KPH := 180.0
  const MIN_REPORTED_MOVING_SPEED_KPH := 2

  /** 180 km/h in metres per second. */
  const MAX_METERS_PER_SECOND := 50.0

  datatype Point = Point(id: int, receivedAt: Instant, latitude: real, longitude: real, speedKph: int)

  /** The metres between two coordinates: latitude, longitude, latitude, longitude. */
  type Metric = (real, real, real, real) -> real

  datatype DailyRow = DailyRow(date: int, meters: real)

  datatype Odometer = Odometer(total: real, last: Point)

  /** The rows of one device: at most one odometer row, and the daily rows by date. */
  datatype Device = Device(odometer: Option<Odometer>, daily: seq<DailyRow>)

  const EMPTY := Device(None, [])

  predicate ValidCoordinates(latitude: real, longitude: real) {
    -90.0 <= latitude <= 90.0 && -180.0 <= longitude <= 180.0
  }

  function GapSeconds(previous: Point, current: Point): int {
    NumSeconds(current.receivedAt - previous.receivedAt)
  }

  /** The metres a pair of consecutive points adds, unless the segment is implausible. */
  function AcceptedSegment(metric: Metric, previous: Point, current: Point): Option<real> {
    if !ValidCoordinates(previous.latitude, previous.longitude)
       || !ValidCoordinates(current.latitude, current.longitude) then None
    else
      var gap := GapSeconds(previous, current);
      if !(1 <= gap <= MAX_POINT_GAP_SECONDS) then None
      else if previous.speedKph < MIN_REPORTED_MOVING_SPEED_KPH
              && current.speedKph < MIN_REPORTED_MOVING_SPEED_KPH then None
      else
        var meters := metric(previous.latitude, previous.longitude, current.latitude, current.longitude);
        if meters < MIN_SEGMENT_METERS then None
        else if meters / 1000.0 / (gap as real / 3600.0) > MAX_PLAUSIBLE_SPEED_KPH then None
        else Some(meters)
  }

  /** Add to the row of a date, or insert the row where it belongs. */
  function Upsert(daily: seq<DailyRow>, date: int, meters: real): seq<DailyRow> {
    if daily == [] || date < daily[0].date then [DailyRow(date, meters)] + daily
    else if date == daily[0].date then [DailyRow(date, daily[0].meters + meters)] + daily[1..]
    else [daily[0]] + Upsert(daily[1..], date, meters)
  }

  /** The metres of a date, none if it has no row. */
  function MetersOn(daily: seq<DailyRow>, date: int): real {
    if daily == [] then 0.0
    else if daily[0].date == date then daily[0].meters
    else MetersOn(daily[1..], date)
  }

  function Sum(daily: seq<DailyRow>): real {
    if daily == [] then 0.0 else daily[0].meters + Sum(daily[1..])
  }

  predicate Sorted(daily: seq<DailyRow>) {
    forall i, j :: 0 <= i < j < |daily| ==> daily[i].date < daily[j].date
  }

  /** One location, processed after its row was stored. */
  function Process(metric: Metric, device: Device, point: Point): (Device, real) {
    if device.odometer.Some? && point.id <= device.odometer.value.last.id then (device, 0.0)
    else
      var accepted :=
        if device.odometer.None? then 0.0
        else AcceptedSegment(metric, device.odometer.value.last, point).UnwrapOr(0.0);
      var total := if device.odometer.None? then accepted else device.odometer.value.total + accepted;
      var daily := if accepted > 0.0 then Upsert(device.daily, WibDate(point.receivedAt), accepted) else device.daily;
      (Device(Some(Odometer(total, point)), daily), accepted)
  }

  /** Points processed one after another from `device`. */
  function ProcessAll(metric: Metric, device: Device, points: seq<Point>): Device {
    if points == [] then device
    else Process(metric, ProcessAll(metric, device, points[..|points| - 1]), points[|points| - 1]).0
  }

  class DistanceStore {
    const metric: Metric
    var odometers: map<string, Odometer>
    var dailies: map<string, seq<DailyRow>>
    /** Stored locations by device, in the order of their ids. */
    var locations: map<string, seq<Point>>

    /** An id names one location of a device, and the table is read in the order of the ids. */
    ghost predicate Valid()
      reads this`locations
    {
      forall imei :: StrictlyIncreasing(Locations(imei))
    }

    constructor (metric: Metric)
      ensures Valid()
      ensures this.metric == metric && odometers == map[] && dailies == map[] && locations == map[]
    {
      this.metric := metric;
      odometers, dailies, locations := map[], map[], map[];
    }

    function Rows(imei: string): Device
      reads this
    {
      Device(if imei in odometers then Some(odometers[imei]) else None,
             if imei in dailies then dailies[imei] else [])
    }

    function Locations(imei: string): seq<Point>
      reads this`locations
    {
      if imei in locations then locations[imei] else []
    }

    method ProcessLocationDistance(imei: string, point: Point) returns (accepted: real)
      modifies this`odometers, this`dailies
      ensures (Rows(imei), accepted) == Process(metric, old(Rows(imei)), point)
      ensures forall other :: other != imei ==> Rows(other) == old(Rows(other))
    {
      hide AcceptedSegment;
      if imei in odometers && point.id <= odometers[imei].last.id {
        return 0.0;
      }
      accepted := 0.0;
      if imei in odometers {
        accepted := AcceptedSegment(metric, odometers[imei].last, point).UnwrapOr(0.0);
      }
      if imei in odometers {
        odometers := odometers[imei := Odometer(odometers[imei].total + accepted, point)];
      } else {
        odometers := odometers[imei := Odometer(accepted, point)];
      }
      if accepted > 0.0 {
        var date := WibDate(point.receivedAt);
        var rows := if imei in dailies then dailies[imei] else [];
        dailies := dailies[imei := Upsert(rows, date, accepted)];
      }
    }

    /** Delete the derived rows and replay every stored location, by id. */
    method BackfillDeviceDistance(imei: string)
      requires Valid()
      modifies this`odometers, this`dailies
      ensures Valid() && StrictlyIncreasing(Locations(imei))
      ensures Rows(imei) == ProcessAll(metric, EMPTY, Locations(imei))
      ensures forall other :: other != imei ==> Rows(other) == old(Rows(other))
    {
      var points := Locations(imei);
      dailies := dailies - {imei};
      odometers := odometers - {imei};
      assert Rows(imei) == EMPTY;
      for i := 0 to |points|
        invariant Rows(imei) == ProcessAll(metric, EMPTY, points[..i])
        invariant forall other :: other != imei ==> Rows(other) == old(Rows(other))
      {
        assert points[..i + 1][..i] == points[..i];
        var _ := ProcessLocationDistance(imei, points[i]);
      }
      assert points[..|points|] == points;
    }

    /** A location arrives: its row is stored and processed in one transaction. */
    method RecordLocation(imei: string, point: Point) returns (accepted: real)
      requires Valid()
      modifies this
      ensures Valid()
      ensures Locations(imei) == InsertById(old(Locations(imei)), point)
      ensures (Rows(imei), accepted) == Process(metric, old(Rows(imei)), point)
      ensures forall other :: other != imei ==> Rows(other) == old(Rows(other))
      ensures forall other :: other != imei ==> Locations(other) == old(Locations(other))
    {
      hide StrictlyIncreasing, Process;
      InsertKeepsOrder(Locations(imei), point);
      locations := locations[imei := InsertById(Locations(imei), point)];
      forall other ensures StrictlyIncreasing(Locations(other)) {
        if other != imei {
          assert StrictlyIncreasing(old(Locations(other)));
        }
      }
      label Stored:
      assert Valid();
      accepted := ProcessLocationDistance(imei, point);
      assert forall other {:trigger Locations(other)} :: Locations(other) == old@Stored(Locations(other));
    }
  }

  /** The table of locations with one more row; an id names one row. */
  function InsertById(rows: seq<Point>, point: Point): seq<Point> {
    if rows == [] || point.id < rows[0].id then [point] + rows
    else if point.id == rows[0].id then rows
    else [rows[0]] + InsertById(rows[1..], point)
  }

  predicate StrictlyIncreasing(points: seq<Point>) {
    forall i, j :: 0 <= i < j < |points| ==> points[i].id < points[j].id
  }

  predicate HasId(points: seq<Point>, id: int) {
    exists i :: 0 <= i < |points| && points[i].id == id
  }

  /** Inserting keeps the order, adds the id, and keeps the row of an id already there. */
  lemma {:induction false} InsertKeepsOrder(rows: seq<Point>, point: Point)
    requires StrictlyIncreasing(rows)
    ensures StrictlyIncreasing(InsertById(rows, point))
    ensures forall p :: p in InsertById(rows, point) <==> p in rows || (p == point && !HasId(rows, point.id))
  {
    if rows != [] && point.id > rows[0].id {
      InsertKeepsOrder(rows[1..], point);
      assert rows == [rows[0]] + rows[1..];
      assert HasId(rows, point.id) <==> HasId(rows[1..], point.id);
      InsertAfterFirst(rows[0], InsertById(rows[1..], point));
    }
  }

  lemma InsertAfterFirst(first: Point, rest: seq<Point>)
    requires StrictlyIncreasing(rest) && forall p :: p in rest ==> first.id < p.id
    ensures StrictlyIncreasing([first] + rest)
  {}

  // ---- The daily table ----

  lemma UpsertIsUpdate(daily: seq<DailyRow>, date: int, meters: real)
    requires Sorted(daily)
    ensures Sorted(Upsert(daily, date, meters))
    ensures Sum(Upsert(daily, date, meters)) == Sum(daily) + meters
    ensures forall d :: MetersOn(Upsert(daily, date, meters), d) ==
                        MetersOn(daily, d) + if d == date then meters else 0.0
  {
    hide Sorted, Sum, Upsert, MetersOn;
    UpsertSorted(daily, date, meters);
    UpsertSum(daily, date, meters);
    forall d {
      UpsertMeters(daily, date, meters, d);
    }
  }

  lemma {:induction false} UpsertSorted(daily: seq<DailyRow>, date: int, meters: real)
    requires Sorted(daily)
    ensures Sorted(Upsert(daily, date, meters))
    ensures Upsert(daily, date, meters)[0].date == if daily == [] || date < daily[0].date then date else daily[0].date
  {
    hide Sorted;
    if daily == [] {
      SortedCons(DailyRow(date, meters), []);
      EmptySorted();
    } else {
      assert daily == [daily[0]] + daily[1..];
      SortedCons(daily[0], daily[1..]);
      if date < daily[0].date {
        SortedCons(DailyRow(date, meters), daily);
      } else if date == daily[0].date {
        SortedCons(DailyRow(date, daily[0].meters + meters), daily[1..]);
      } else {
        UpsertSorted(daily[1..], date, meters);
        SortedCons(daily[0], Upsert(daily[1..], date, meters));
      }
    }
  }

  lemma EmptySorted()
    ensures Sorted([])
  {}

  lemma SortedCons(row: DailyRow, rest: seq<DailyRow>)
    ensures Sorted([row] + rest) <==> Sorted(rest) && (rest == [] || row.date < rest[0].date)
  {
    var all := [row] + rest;
    assert forall i :: 0 <= i < |rest| ==> all[i + 1] == rest[i];
    if Sorted(all) {
      assert rest != [] ==> all[0].date < all[1].date;
      forall i, j | 0 <= i < j < |rest| ensures rest[i].date < rest[j].date {
        assert all[i + 1].date < all[j + 1].date;
      }
    }
  }

  lemma {:induction false} UpsertSum(daily: seq<DailyRow>, date: int, meters: real)
    ensures Sum(Upsert(daily, date, meters)) == Sum(daily) + meters
  {
    var rows := Upsert(daily, date, meters);
    if daily == [] || date < daily[0].date {
      assert rows[1..] == daily;
    } else if date == daily[0].date {
      assert rows[1..] == daily[1..];
    } else {
      UpsertSum(daily[1..], date, meters);
      assert rows[1..] == Upsert(daily[1..], date, meters);
    }
  }

  lemma {:induction false} UpsertMeters(daily: seq<DailyRow>, date: int, meters: real, d: int)
    requires Sorted(daily)
    ensures MetersOn(Upsert(daily, date, meters), d) == MetersOn(daily, d) + if d == date then meters else 0.0
  {
    var rows := Upsert(daily, date, meters);
    if daily == [] || date < daily[0].date {
      assert rows[1..] == daily;
      AbsentBefore(daily, date);
    } else if date == daily[0].date {
      assert rows[1..] == daily[1..];
    } else {
      UpsertMeters(daily[1..], date, meters, d);
      assert rows[1..] == Upsert(daily[1..], date, meters);
    }
  }

  lemma {:induction false} AbsentBefore(daily: seq<DailyRow>, date: int)
    requires forall i :: 0 <= i < |daily| ==> date < daily[i].date
    ensures MetersOn(daily, date) == 0.0
  {
    if daily != [] {
      AbsentBefore(daily[1..], date);
    }
  }

  // ---- What one segment may add ----

  lemma SegmentBounds(metric: Metric, previous: Point, current: Point)
    ensures var accepted, gap := AcceptedSegment(metric, previous, current), GapSeconds(previous, current);
            accepted.Some? ==>
              && 1 <= gap <= MAX_POINT_GAP_SECONDS
              && 5.0 <= accepted.value <= 50.0 * gap as real
              && accepted.value <= 15_000.0
  {
    var accepted, gap := AcceptedSegment(metric, previous, current), GapSeconds(previous, current);
    if accepted.Some? {
      var hours := gap as real / 3600.0;
      SpeedToDistance(accepted.value / 1000.0, hours);
    }
  }

  lemma SpeedToDistance(km: real, hours: real)
    requires hours > 0.0 && km / hours <= MAX_PLAUSIBLE_SPEED_KPH
    ensures km <= MAX_PLAUSIBLE_SPEED_KPH * hours
  {
    assert km == km / hours * hours;
    var speed := km / hours;
    assert (MAX_PLAUSIBLE_SPEED_KPH - speed) * hours >= 0.0;
  }

  // ---- The total is the sum of the days ----

  ghost predicate Consistent(device: Device) {
    && Sorted(device.daily)
    && Sum(device.daily) == if device.odometer.Some? then device.odometer.value.total else 0.0
  }

  lemma ProcessKeepsConsistent(metric: Metric, device: Device, point: Point)
    requires Consistent(device)
    ensures Consistent(Process(metric, device, point).0)
    ensures Process(metric, device, point).1 >= 0.0
  {
    SegmentBounds(metric, device.odometer.UnwrapOr(Odometer(0.0, point)).last, point);
    var accepted := Process(metric, device, point).1;
    UpsertIsUpdate(device.daily, WibDate(point.receivedAt), accepted);
  }

  /** In every state reached by processing any points in any order, the odometer total is
      the sum of the daily rows, of which there is one for each date. */
  lemma {:induction false} TotalIsSumOfDays(metric: Metric, points: seq<Point>)
    ensures Consistent(ProcessAll(metric, EMPTY, points))
  {
    if points != [] {
      TotalIsSumOfDays(metric, points[..|points| - 1]);
      ProcessKeepsConsistent(metric, ProcessAll(metric, EMPTY, points[..|points| - 1]), points[|points| - 1]);
    }
  }

  // ---- Live processing is a replay ----

  /** The points whose id exceeds every id before. */
  function RunningMaxima(points: seq<Point>): seq<Point> {
    if points == [] then []
    else
      var before := RunningMaxima(points[..|points| - 1]);
      var point := points[|points| - 1];
      if before != [] && point.id <= before[|before| - 1].id then before else before + [point]
  }

  /** The largest id seen, where there is one. */
  predicate NoneAbove(points: seq<Point>, maxima: seq<Point>) {
    if maxima == [] then points == []
    else forall i :: 0 <= i < |points| ==> points[i].id <= maxima[|maxima| - 1].id
  }

  lemma {:induction false} RunningMaximaIncrease(points: seq<Point>)
    ensures StrictlyIncreasing(RunningMaxima(points))
    ensures NoneAbove(points, RunningMaxima(points))
  {
    hide StrictlyIncreasing, NoneAbove;
    if points == [] {
      NothingIncreases();
    } else {
      var n := |points| - 1;
      RunningMaximaIncrease(points[..n]);
      assert points == points[..n] + [points[n]];
      AppendMaximum(points[..n], RunningMaxima(points[..n]), points[n]);
    }
  }

  lemma NothingIncreases()
    ensures StrictlyIncreasing([]) && NoneAbove([], [])
  {}

  lemma AppendMaximum(points: seq<Point>, maxima: seq<Point>, point: Point)
    requires StrictlyIncreasing(maxima) && NoneAbove(points, maxima)
    ensures maxima != [] && point.id <= maxima[|maxima| - 1].id ==> NoneAbove(points + [point], maxima)
    ensures maxima == [] || point.id > maxima[|maxima| - 1].id ==>
              StrictlyIncreasing(maxima + [point]) && NoneAbove(points + [point], maxima + [point])
  {}

  predicate AllBelow(points: seq<Point>, id: int) {
    forall p :: p in points ==> p.id < id
  }

  /** `RunningMaxima` is what its name says: a point is in it exactly when, somewhere in the
      arrival order, its id exceeds all before. */
  lemma {:induction false} RunningMaximaCorrect(points: seq<Point>, p: Point)
    ensures p in RunningMaxima(points) <==>
            exists i :: 0 <= i < |points| && points[i] == p && AllBelow(points[..i], p.id)
  {
    hide AllBelow;
    if points != [] {
      var n := |points| - 1;
      var init := points[..n];
      RunningMaximaCorrect(init, p);
      NewMaximum(init, points[n].id);
      assert forall i :: 0 <= i < n ==> init[i] == points[i] && init[..i] == points[..i];
    }
  }

  lemma NewMaximum(points: seq<Point>, id: int)
    ensures var maxima := RunningMaxima(points);
            AllBelow(points, id) <==> maxima == [] || maxima[|maxima| - 1].id < id
  {
    hide StrictlyIncreasing, RunningMaxima;
    var maxima := RunningMaxima(points);
    RunningMaximaIncrease(points);
    if maxima != [] {
      MaximaAreFromPoints(points, maxima[|maxima| - 1]);
    }
  }

  lemma {:induction false} MaximaAreFromPoints(points: seq<Point>, p: Point)
    requires p in RunningMaxima(points)
    ensures p in points
  {
    var n := |points| - 1;
    if p in RunningMaxima(points[..n]) {
      MaximaAreFromPoints(points[..n], p);
    }
  }

  lemma IncreasingPrefix(points: seq<Point>)
    requires StrictlyIncreasing(points) && points != []
    ensures var n := |points| - 1;
            StrictlyIncreasing(points[..n]) && (n > 0 ==> points[..n][n - 1].id < points[n].id)
  {}

  lemma {:induction false} RunningMaximaOfIncreasing(points: seq<Point>)
    requires StrictlyIncreasing(points)
    ensures RunningMaxima(points) == points
  {
    if points != [] {
      IncreasingPrefix(points);
      hide StrictlyIncreasing;
      var n := |points| - 1;
      RunningMaximaOfIncreasing(points[..n]);
      assert points == points[..n] + [points[n]];
    }
  }

  lemma {:induction false} CheckpointIsLast(metric: Metric, points: seq<Point>)
    ensures var maxima := RunningMaxima(points);
            ProcessAll(metric, EMPTY, points).odometer.Some? <==> maxima != []
    ensures var maxima := RunningMaxima(points);
            maxima != [] ==> ProcessAll(metric, EMPTY, points).odometer.value.last == maxima[|maxima| - 1]
  {
    if points != [] {
      CheckpointIsLast(metric, points[..|points| - 1]);
    }
  }

  /** Whatever arrives in whatever order, repeats included, the odometer, checkpoint and
      daily rows are those of replaying just the points whose id is a new maximum. */
  lemma {:induction false} LiveIsReplayOfMaxima(metric: Metric, points: seq<Point>)
    ensures ProcessAll(metric, EMPTY, points) == ProcessAll(metric, EMPTY, RunningMaxima(points))
  {
    hide Process;
    if points != [] {
      var n := |points| - 1;
      LiveIsReplayOfMaxima(metric, points[..n]);
      CheckpointIsLast(metric, points[..n]);
      var before := RunningMaxima(points[..n]);
      if before != [] && points[n].id <= before[|before| - 1].id {
        OldPointIsIgnored(metric, ProcessAll(metric, EMPTY, points[..n]), points[n]);
      }
      assert (before + [points[n]])[..|before|] == before;
    }
  }

  lemma OldPointIsIgnored(metric: Metric, device: Device, point: Point)
    requires device.odometer.Some? && point.id <= device.odometer.value.last.id
    ensures Process(metric, device, point) == (device, 0.0)
  {}

  /** When ids arrive in increasing order, live processing and a backfill agree, and the
      table of locations is the arrivals. */
  lemma {:induction false} BackfillChangesNothing(metric: Metric, points: seq<Point>)
    requires StrictlyIncreasing(points)
    ensures StoredById(points) == points
    ensures ProcessAll(metric, EMPTY, StoredById(points)) == ProcessAll(metric, EMPTY, points)
  {
    if points != [] {
      var n := |points| - 1;
      BackfillChangesNothing(metric, points[..n]);
      InsertLast(points[..n], points[n]);
      assert points == points[..n] + [points[n]];
    }
  }

  /** The table of locations after the points have arrived. */
  function StoredById(points: seq<Point>): seq<Point> {
    if points == [] then []
    else InsertById(StoredById(points[..|points| - 1]), points[|points| - 1])
  }

  lemma {:induction false} InsertLast(rows: seq<Point>, point: Point)
    requires forall i :: 0 <= i < |rows| ==> rows[i].id < point.id
    ensures InsertById(rows, point) == rows + [point]
  {
    if rows != [] {
      InsertLast(rows[1..], point);
    }
  }

  /** Out of order they may not: a point that arrives late is left out of the odometer until
      a backfill counts it. */
  lemma LateArrivalDiffersFromBackfill()
    ensures var metric: Metric := (_, _, _, _) => 100.0;
            var first := Point(1, 0, 0.0, 0.0, 30);
            var second := Point(2, 10 * SECOND, 0.0, 0.0, 30);
            ProcessAll(metric, EMPTY, [second, first]).odometer.value.total == 0.0
            && ProcessAll(metric, EMPTY, StoredById([second, first])).odometer.value.total == 100.0
  {
    hide AcceptedSegment, Upsert;
    var metric: Metric := (_, _, _, _) => 100.0;
    var first := Point(1, 0, 0.0, 0.0, 30);
    var second := Point(2, 10 * SECOND, 0.0, 0.0, 30);
    TwoPoints(metric, second, first);
    TwoPoints(metric, first, second);
    assert [second, first][..1] == [second] && [second][..0] == [];
    assert StoredById([second]) == [second];
    assert StoredById([second, first]) == [first, second];
    AcceptsHundredMeters(metric, first, second);
  }

  lemma AcceptsHundredMeters(metric: Metric, first: Point, second: Point)
    requires metric(0.0, 0.0, 0.0, 0.0) == 100.0
    requires first == Point(1, 0, 0.0, 0.0, 30) && second == Point(2, 10 * SECOND, 0.0, 0.0, 30)
    ensures AcceptedSegment(metric, first, second) == Some(100.0)
  {
    assert GapSeconds(first, second) == 10;
    assert 100.0 / 1000.0 / (10.0 / 3600.0) == 36.0;
  }

  lemma TwoPoints(metric: Metric, a: Point, b: Point)
    ensures ProcessAll(metric, EMPTY, [a, b]) == Process(metric, Process(metric, EMPTY, a).0, b).0
  {
    assert [a, b][..1] == [a];
    assert [a][..0] == [];
    assert ProcessAll(metric, EMPTY, [a]) == Process(metric, ProcessAll(metric, EMPTY, []), a).0;
  }

  // ---- Physical bounds ----

  predicate TimesNonDecreasing(points: seq<Point>) {
    forall i, j :: 0 <= i < j < |points| ==> points[i].receivedAt <= points[j].receivedAt
  }

  /** Distance covered at the speed limit in a duration. */
  function SpeedLimit(duration: int): real {
    MAX_METERS_PER_SECOND * (duration as real / SECOND as real)
  }

  lemma SpeedLimitLaws(a: int, b: int)
    ensures SpeedLimit(a) + SpeedLimit(b) == SpeedLimit(a + b)
    ensures a <= b ==> SpeedLimit(a) <= SpeedLimit(b)
    ensures SpeedLimit(0) == 0.0
  {}

  /** A segment is accepted only within the speed limit, whatever the metric says. */
  lemma SegmentWithinSpeedLimit(metric: Metric, previous: Point, current: Point)
    ensures var accepted := AcceptedSegment(metric, previous, current);
            accepted.Some? ==>
              && accepted.value <= SpeedLimit(current.receivedAt - previous.receivedAt)
              && accepted.value <= SpeedLimit(MAX_POINT_GAP_SECONDS * SECOND)
  {
    SegmentBounds(metric, previous, current);
    if AcceptedSegment(metric, previous, current).Some? {
      var gap := GapSeconds(previous, current);
      NumSecondsBound(current.receivedAt - previous.receivedAt);
      SpeedLimitLaws(gap * SECOND, current.receivedAt - previous.receivedAt);
      SpeedLimitLaws(gap * SECOND, MAX_POINT_GAP_SECONDS * SECOND);
      assert SpeedLimit(gap * SECOND) == MAX_METERS_PER_SECOND * gap as real;
    }
  }

  /** The total never exceeds 50 metres for each second between the first and the last
      processed point. */
  lemma {:induction false} TotalWithinSpeedLimit(metric: Metric, points: seq<Point>)
    requires StrictlyIncreasing(points) && TimesNonDecreasing(points) && points != []
    ensures var total := ProcessAll(metric, EMPTY, points).odometer.value.total;
            0.0 <= total <= SpeedLimit(points[|points| - 1].receivedAt - points[0].receivedAt)
    decreases |points|
  {
    hide AcceptedSegment, SpeedLimit, StrictlyIncreasing, TimesNonDecreasing, RunningMaxima;
    var n := |points| - 1;
    CheckpointIsLast(metric, points);
    SpeedLimitLaws(0, 0);
    if n == 0 {
      assert points[..0] == [];
    } else {
      PrefixOrdered(points, n);
      TotalWithinSpeedLimit(metric, points[..n]);
      CheckpointIsLast(metric, points[..n]);
      RunningMaximaOfIncreasing(points[..n]);
      SegmentBounds(metric, points[n - 1], points[n]);
      SegmentWithinSpeedLimit(metric, points[n - 1], points[n]);
      SpeedLimitLaws(points[n - 1].receivedAt - points[0].receivedAt, points[n].receivedAt - points[n - 1].receivedAt);
      SpeedLimitLaws(0, points[n].receivedAt - points[n - 1].receivedAt);
    }
  }

  lemma PrefixOrdered(points: seq<Point>, n: nat)
    requires StrictlyIncreasing(points) && TimesNonDecreasing(points) && 1 <= n < |points|
    ensures StrictlyIncreasing(points[..n]) && TimesNonDecreasing(points[..n])
    ensures points[n - 1].id < points[n].id && points[n - 1].receivedAt <= points[n].receivedAt
  {}

  /** What the rows may hold at an instant: the running date at most the speed limit since
      midnight, plus one gap that began before; earlier dates at most a whole day of it;
      later dates nothing. */
  ghost predicate DaysBounded(daily: seq<DailyRow>, now: Instant) {
    forall date ::
      && (date < WibDate(now) ==> MetersOn(daily, date) <= SpeedLimit(DAY + MAX_POINT_GAP_SECONDS * SECOND))
      && (date == WibDate(now) ==>
            MetersOn(daily, date) <= SpeedLimit(now - StartOf(date) + MAX_POINT_GAP_SECONDS * SECOND))
      && (date > WibDate(now) ==> MetersOn(daily, date) == 0.0)
  }

  lemma DaysBoundedLater(daily: seq<DailyRow>, now: Instant, later: Instant)
    requires DaysBounded(daily, now) && now <= later
    ensures DaysBounded(daily, later)
    ensures WibDate(now) < WibDate(later) ==> MetersOn(daily, WibDate(later)) == 0.0
  {
    hide SpeedLimit, MetersOn, WibDate;
    WithinDate(now);
    WithinDate(later);
    WibDateMonotone(now, later);
    forall date
      ensures date < WibDate(later) ==> MetersOn(daily, date) <= SpeedLimit(DAY + MAX_POINT_GAP_SECONDS * SECOND)
      ensures date == WibDate(later) ==>
                MetersOn(daily, date) <= SpeedLimit(later - StartOf(date) + MAX_POINT_GAP_SECONDS * SECOND)
      ensures date > WibDate(later) ==> MetersOn(daily, date) == 0.0
    {
      var gap := MAX_POINT_GAP_SECONDS * SECOND;
      SpeedLimitLaws(0, DAY + gap);
      SpeedLimitLaws(now - StartOf(date) + gap, DAY + gap);
      SpeedLimitLaws(now - StartOf(date) + gap, later - StartOf(date) + gap);
      SpeedLimitLaws(0, later - StartOf(date) + gap);
    }
  }

  /** No date's row ever exceeds 50 metres a second over a day and one gap, although a
      segment that crosses midnight counts in full for the day it ends. */
  lemma {:induction false} DailyRowWithinSpeedLimit(metric: Metric, points: seq<Point>)
    requires StrictlyIncreasing(points) && TimesNonDecreasing(points) && points != []
    ensures DaysBounded(ProcessAll(metric, EMPTY, points).daily, points[|points| - 1].receivedAt)
    decreases |points|
  {
    hide AcceptedSegment, SpeedLimit, StrictlyIncreasing, TimesNonDecreasing, RunningMaxima;
    hide WibDate, DaysBounded, Upsert;
    var n := |points| - 1;
    if n == 0 {
      assert points[..0] == [];
      NothingDriven(points[0].receivedAt);
    } else {
      PrefixOrdered(points, n);
      DailyRowWithinSpeedLimit(metric, points[..n]);
      CheckpointIsLast(metric, points[..n]);
      RunningMaximaOfIncreasing(points[..n]);
      var device := ProcessAll(metric, EMPTY, points[..n]);
      DaysBoundedLater(device.daily, points[n - 1].receivedAt, points[n].receivedAt);
      if AcceptedSegment(metric, points[n - 1], points[n]).Some? {
        TotalIsSumOfDays(metric, points[..n]);
        SegmentWithinSpeedLimit(metric, points[n - 1], points[n]);
        AddWithinBounds(device.daily, points[n - 1].receivedAt, points[n].receivedAt,
                        AcceptedSegment(metric, points[n - 1], points[n]).value);
        SegmentBounds(metric, points[n - 1], points[n]);
      }
    }
  }

  lemma NothingDriven(now: Instant)
    ensures DaysBounded([], now)
  {
    WithinDate(now);
    SpeedLimitLaws(0, DAY + MAX_POINT_GAP_SECONDS * SECOND);
    SpeedLimitLaws(0, now - StartOf(WibDate(now)) + MAX_POINT_GAP_SECONDS * SECOND);
  }

  lemma AddWithinBounds(daily: seq<DailyRow>, before: Instant, now: Instant, meters: real)
    requires Sorted(daily) && before <= now && DaysBounded(daily, before)
    requires meters <= SpeedLimit(now - before) && meters <= SpeedLimit(MAX_POINT_GAP_SECONDS * SECOND)
    ensures DaysBounded(Upsert(daily, WibDate(now), meters), now)
  {
    hide SpeedLimit, WibDate, Upsert, MetersOn;
    var today := WibDate(now);
    DaysBoundedLater(daily, before, now);
    UpsertIsUpdate(daily, today, meters);
    WithinDate(now);
    WibDateMonotone(before, now);
    var gap := MAX_POINT_GAP_SECONDS * SECOND;
    SpeedLimitLaws(before - StartOf(today) + gap, now - before);
    SpeedLimitLaws(gap, now - StartOf(today) + gap);
  }

  /** For any arrival order with repeats, as long as the ids that count were received in
      order of time: at most 50 m for each second from the first to the last of them, and on
      no date more than 50 m/s over 86 400 + 300 seconds. */
  lemma PhysicalBounds(metric: Metric, points: seq<Point>, date: int)
    requires TimesNonDecreasing(RunningMaxima(points))
    ensures var maxima := RunningMaxima(points);
            var device := ProcessAll(metric, EMPTY, points);
            && (maxima != [] ==>
                  var elapsed := maxima[|maxima| - 1].receivedAt - maxima[0].receivedAt;
                  0.0 <= device.odometer.value.total <= 50.0 * (elapsed as real / 1_000_000.0))
            && MetersOn(device.daily, date) <= 50.0 * (86_400.0 + 300.0)
  {
    hide StrictlyIncreasing, TimesNonDecreasing, Process, RunningMaxima;
    var maxima := RunningMaxima(points);
    RunningMaximaIncrease(points);
    CheckpointIsLast(metric, points);
    LiveIsReplayOfMaxima(metric, points);
    if maxima != [] {
      var now := maxima[|maxima| - 1].receivedAt;
      TotalWithinSpeedLimit(metric, maxima);
      DailyRowWithinSpeedLimit(metric, maxima);
      WithinDate(now);
      var gap := MAX_POINT_GAP_SECONDS * SECOND;
      SpeedLimitLaws(now - StartOf(WibDate(now)) + gap, DAY + gap);
    }
  }

  // ---- Rows never hold a negative distance ----

  predicate NonNegative(daily: seq<DailyRow>) {
    forall i :: 0 <= i < |daily| ==> daily[i].meters >= 0.0
  }

  lemma {:induction false} UpsertNonNegative(daily: seq<DailyRow>, date: int, meters: real)
    requires NonNegative(daily) && meters >= 0.0
    ensures NonNegative(Upsert(daily, date, meters))
  {
    if daily != [] && date > daily[0].date {
      UpsertNonNegative(daily[1..], date, meters);
    }
  }

  lemma ProcessKeepsNonNegative(metric: Metric, device: Device, point: Point)
    requires NonNegative(device.daily)
    ensures NonNegative(Process(metric, device, point).0.daily)
  {
    hide AcceptedSegment, NonNegative;
    if device.odometer.Some? {
      SegmentBounds(metric, device.odometer.value.last, point);
    }
    if Process(metric, device, point).1 > 0.0 {
      UpsertNonNegative(device.daily, WibDate(point.receivedAt), Process(metric, device, point).1);
    }
  }

  lemma {:induction false} RowsNonNegative(metric: Metric, points: seq<Point>)
    ensures NonNegative(ProcessAll(metric, EMPTY, points).daily)
  {
    hide Process, NonNegative;
    if points == [] {
      assert NonNegative([]) by { NoRows(); }
    } else {
      var n := |points| - 1;
      RowsNonNegative(metric, points[..n]);
      ProcessKeepsNonNegative(metric, ProcessAll(metric, EMPTY, points[..n]), points[n]);
    }
  }

  lemma NoRows()
    ensures NonNegative([])
  {}
}
