/** Fuel calibration windows over the odometer of one device. */
module FuelCalibration {
  import opened Common
  import opened WibTime
  import opened ServiceDistance

  datatype Status = Active | Completed | Invalidated

  datatype Calibration = Calibration(
    id: int,
    status: Status,
    startedAt: Instant,
    startMeters: real,
    completedAt: Option<Instant>,
    endMeters: Option<real>,
    distanceMeters: Option<real>,
    liters: Option<real>,
    totalCostIdr: Option<int>,
    fuelType: Option<string>)

  datatype Request = Request(
    liters: real, totalCostIdr: Option<int>, fuelType: Option<string>, tankFull: bool, noMissedRefuels: bool)

  datatype ApiError = DeviceNotFound | AlreadyActive | NotFound | Invalid(message: string)

  type Outcome = Result<(), ApiError>

  /** One device: whether it is registered, its distance rows, and its calibrations by id. */
  datatype Garage = Garage(registered: bool, device: Device, calibrations: seq<Calibration>, nextId: int)

  /** A fuel type, already trimmed. */
  function NormalizeFuelType(fuelType: Option<string>): Result<Option<string>, ApiError> {
    if fuelType.Some? && |fuelType.value| > 40 then Err(Invalid("fuel_type must be at most 40 characters"))
    else if fuelType == Some("") then Ok(None)
    else Ok(fuelType)
  }

  function Validate(request: Request): Outcome {
    if request.liters <= 0.0 || request.liters > 100.0 then
      Err(Invalid("liters must be greater than 0 and at most 100"))
    else if request.totalCostIdr.Some? && request.totalCostIdr.value < 0 then
      Err(Invalid("total_cost_idr cannot be negative"))
    else if !request.tankFull then Err(Invalid("the second refuel must fill the tank"))
    else if !request.noMissedRefuels then Err(Invalid("restart calibration when another refuel was missed"))
    else Ok(())
  }

  function TrackedMeters(device: Device): real {
    var total := if device.odometer.Some? then device.odometer.value.total else 0.0;
    if total < 0.0 then 0.0 else total
  }

  function Opened(garage: Garage, now: Instant, fuelType: Option<string>): Calibration {
    Calibration(garage.nextId, Active, now, TrackedMeters(garage.device), None, None, None, None, None, fuelType)
  }

  predicate HasActive(calibrations: seq<Calibration>) {
    exists i :: 0 <= i < |calibrations| && calibrations[i].status.Active?
  }

  function Invalidate(calibrations: seq<Calibration>): (result: seq<Calibration>)
    ensures |result| == |calibrations|
  {
    seq(|calibrations|, i requires 0 <= i < |calibrations| =>
      if calibrations[i].status.Active? then calibrations[i].(status := Invalidated) else calibrations[i])
  }

  function Start(garage: Garage, now: Instant, fuelType: Option<string>): (Garage, Outcome) {
    var fuel := NormalizeFuelType(fuelType);
    if fuel.Err? then (garage, Err(fuel.error))
    else if !garage.registered then (garage, Err(DeviceNotFound))
    else if HasActive(garage.calibrations) then (garage, Err(AlreadyActive))
    else
      (garage.(calibrations := garage.calibrations + [Opened(garage, now, fuel.value)], nextId := garage.nextId + 1),
       Ok(()))
  }

  function Restart(garage: Garage, now: Instant, fuelType: Option<string>): (Garage, Outcome) {
    var fuel := NormalizeFuelType(fuelType);
    if fuel.Err? then (garage, Err(fuel.error))
    else if !garage.registered then (garage, Err(DeviceNotFound))
    else
      (garage.(calibrations := Invalidate(garage.calibrations) + [Opened(garage, now, fuel.value)],
               nextId := garage.nextId + 1), Ok(()))
  }

  /** The position of the active calibration with an id. */
  function FindActive(calibrations: seq<Calibration>, id: int): (found: Option<nat>)
    ensures found.Some? ==> found.value < |calibrations| && calibrations[found.value].id == id
                            && calibrations[found.value].status.Active?
    ensures found.None? ==> forall i :: 0 <= i < |calibrations| ==>
              !(calibrations[i].id == id && calibrations[i].status.Active?)
  {
    if calibrations == [] then None
    else
      var n := |calibrations| - 1;
      if calibrations[n].id == id && calibrations[n].status.Active? then Some(n)
      else FindActive(calibrations[..n], id)
  }

  function Closed(calibration: Calibration, endMeters: real, now: Instant, request: Request, fuel: Option<string>)
      : Calibration
  {
    var driven := endMeters - calibration.startMeters;
    calibration.(
      status := Completed,
      completedAt := Some(now),
      endMeters := Some(endMeters),
      distanceMeters := Some(if driven < 0.0 then 0.0 else driven),
      liters := Some(request.liters),
      totalCostIdr := request.totalCostIdr,
      fuelType := if fuel.Some? then fuel else calibration.fuelType)
  }

  function Complete(garage: Garage, id: int, request: Request, now: Instant): (Garage, Outcome) {
    var valid, fuel := Validate(request), NormalizeFuelType(request.fuelType);
    if valid.Err? then (garage, Err(valid.error))
    else if fuel.Err? then (garage, Err(fuel.error))
    else
      var found := FindActive(garage.calibrations, id);
      if found.None? then (garage, Err(NotFound))
      else
        var closed := Closed(garage.calibrations[found.value], TrackedMeters(garage.device), now, request, fuel.value);
        (garage.(calibrations := garage.calibrations[found.value := closed]), Ok(()))
  }

  class CalibrationStore {
    const registered: bool
    const distances: DistanceStore
    const imei: string
    var calibrations: seq<Calibration>
    var nextId: int

    constructor (registered: bool, distances: DistanceStore, imei: string)
      ensures this.registered == registered && this.distances == distances && this.imei == imei
      ensures calibrations == [] && nextId == 1
    {
      this.registered, this.distances, this.imei := registered, distances, imei;
      calibrations, nextId := [], 1;
    }

    function View(): Garage
      reads this, distances
    {
      Garage(registered, distances.Rows(imei), calibrations, nextId)
    }

    method StartFuelCalibration(now: Instant, fuelType: Option<string>) returns (outcome: Outcome)
      modifies this
      ensures (View(), outcome) == Start(old(View()), now, fuelType)
    {
      var fuel := NormalizeFuelType(fuelType);
      if fuel.Err? {
        return Err(fuel.error);
      }
      if !registered {
        return Err(DeviceNotFound);
      }
      if HasActive(calibrations) {
        return Err(AlreadyActive);
      }
      var calibration := Opened(View(), now, fuel.value);
      calibrations := calibrations + [calibration];
      nextId := nextId + 1;
      outcome := Ok(());
    }

    method RestartFuelCalibration(now: Instant, fuelType: Option<string>) returns (outcome: Outcome)
      modifies this
      ensures (View(), outcome) == Restart(old(View()), now, fuelType)
    {
      var fuel := NormalizeFuelType(fuelType);
      if fuel.Err? {
        return Err(fuel.error);
      }
      if !registered {
        return Err(DeviceNotFound);
      }
      var calibration := Opened(View(), now, fuel.value);
      calibrations := Invalidate(calibrations);
      calibrations := calibrations + [calibration];
      nextId := nextId + 1;
      outcome := Ok(());
    }

    method CompleteFuelCalibration(id: int, request: Request, now: Instant) returns (outcome: Outcome)
      modifies this
      ensures (View(), outcome) == Complete(old(View()), id, request, now)
    {
      var valid := Validate(request);
      if valid.Err? {
        return Err(valid.error);
      }
      var fuel := NormalizeFuelType(request.fuelType);
      if fuel.Err? {
        return Err(fuel.error);
      }
      var found := FindActive(calibrations, id);
      if found.None? {
        return Err(NotFound);
      }
      var endMeters := TrackedMeters(distances.Rows(imei));
      var closed := Closed(calibrations[found.value], endMeters, now, request, fuel.value);
      calibrations := calibrations[found.value := closed];
      outcome := Ok(());
    }
  }

  // ---- What a request does ----

  /** Which requests are refused, in the order in which the reasons are found. */
  lemma RefusedIff(request: Request)
    ensures Validate(request).Ok? <==>
            && 0.0 < request.liters <= 100.0
            && (request.totalCostIdr.None? || request.totalCostIdr.value >= 0)
            && request.tankFull && request.noMissedRefuels
    ensures !(0.0 < request.liters <= 100.0) ==>
              Validate(request) == Err(Invalid("liters must be greater than 0 and at most 100"))
    ensures 0.0 < request.liters <= 100.0 && request.totalCostIdr.Some? && request.totalCostIdr.value < 0 ==>
              Validate(request) == Err(Invalid("total_cost_idr cannot be negative"))
  {}

  /** A fuel type of more than forty characters is refused, and an empty one is none. */
  lemma FuelTypeRefusedIff(fuelType: Option<string>)
    ensures NormalizeFuelType(fuelType).Err? <==> fuelType.Some? && |fuelType.value| > 40
    ensures NormalizeFuelType(fuelType).Ok? ==>
              NormalizeFuelType(fuelType).value == (if fuelType == Some("") then None else fuelType)
  {}

  /** A calibration opens if and only if the fuel type is short enough, the device is known and
      none is running; it opens behind the others, at the metres of the odometer. */
  lemma StartOpens(garage: Garage, now: Instant, fuelType: Option<string>)
    ensures var (after, outcome) := Start(garage, now, fuelType);
            && (outcome.Ok? <==>
                  && (fuelType.None? || |fuelType.value| <= 40) && garage.registered
                  && forall i :: 0 <= i < |garage.calibrations| ==> garage.calibrations[i].status != Active)
            && (outcome.Err? ==> after == garage)
            && (outcome.Ok? ==>
                  && after.device == garage.device && |after.calibrations| == |garage.calibrations| + 1
                  && after.calibrations[..|garage.calibrations|] == garage.calibrations
                  && after.calibrations[|garage.calibrations|] ==
                     Calibration(garage.nextId, Active, now, Driven(garage), None, None, None, None, None,
                                 if fuelType == Some("") then None else fuelType))
  {}

  /** Restarting opens one in any case, and what was running is invalid. */
  lemma RestartOpens(garage: Garage, now: Instant, fuelType: Option<string>)
    ensures var (after, outcome) := Restart(garage, now, fuelType);
            && (outcome.Ok? <==> (fuelType.None? || |fuelType.value| <= 40) && garage.registered)
            && (outcome.Err? ==> after == garage)
            && (outcome.Ok? ==>
                  && after.device == garage.device && |after.calibrations| == |garage.calibrations| + 1
                  && (forall i :: 0 <= i < |garage.calibrations| ==>
                        after.calibrations[i] ==
                        if garage.calibrations[i].status == Active then garage.calibrations[i].(status := Invalidated)
                        else garage.calibrations[i])
                  && after.calibrations[|garage.calibrations|] ==
                     Calibration(garage.nextId, Active, now, Driven(garage), None, None, None, None, None,
                                 if fuelType == Some("") then None else fuelType))
  {}

  /** The metres of the odometer, none without one. */
  function Driven(garage: Garage): real {
    if garage.device.odometer.Some? && garage.device.odometer.value.total > 0.0 then garage.device.odometer.value.total
    else 0.0
  }

  /** A calibration closes if and only if the request stands and names the one running; it stores
      the time, the metres, the fuel and the cost, and no other row changes. */
  lemma CompleteCloses(garage: Garage, id: int, request: Request, now: Instant, i: nat)
    requires Invariant(garage) && i < |garage.calibrations|
    requires garage.calibrations[i].status == Active
    ensures var (after, outcome), row := Complete(garage, id, request, now), garage.calibrations[i];
            && (outcome.Ok? <==>
                  && 0.0 < request.liters <= 100.0 && request.tankFull && request.noMissedRefuels
                  && (request.totalCostIdr.None? || request.totalCostIdr.value >= 0)
                  && (request.fuelType.None? || |request.fuelType.value| <= 40)
                  && row.id == id)
            && (outcome.Err? ==> after == garage)
            && (outcome.Ok? ==>
                  after == garage.(calibrations := garage.calibrations[i := Calibration(
                    id, Completed, row.startedAt, row.startMeters, Some(now), Some(Driven(garage)),
                    Some(Driven(garage) - row.startMeters), Some(request.liters), request.totalCostIdr,
                    if request.fuelType.None? || request.fuelType == Some("") then row.fuelType
                    else request.fuelType)]))
  {
    OnlyNewestIsActive(garage.calibrations, i);
    assert RowOk(garage.calibrations[i], TrackedMeters(garage.device));
    var found := FindActive(garage.calibrations, id);
    if found.Some? {
      OnlyNewestIsActive(garage.calibrations, found.value);
    }
  }

  /** Without one running, nothing closes. */
  lemma NothingToClose(garage: Garage, id: int, request: Request, now: Instant)
    requires forall i :: 0 <= i < |garage.calibrations| ==> garage.calibrations[i].status != Active
    ensures Complete(garage, id, request, now).0 == garage && Complete(garage, id, request, now).1.Err?
  {}

  // ---- Runs ----

  datatype Event =
    | Locate(point: Point)
    | StartRequest(now: Instant, fuelType: Option<string>)
    | RestartRequest(now: Instant, fuelType: Option<string>)
    | CompleteRequest(id: int, request: Request, now: Instant)

  function Step(metric: Metric, garage: Garage, event: Event): Garage {
    match event
    case Locate(point) => garage.(device := Process(metric, garage.device, point).0)
    case StartRequest(now, fuelType) => Start(garage, now, fuelType).0
    case RestartRequest(now, fuelType) => Restart(garage, now, fuelType).0
    case CompleteRequest(id, request, now) => Complete(garage, id, request, now).0
  }

  function Initial(registered: bool): Garage {
    Garage(registered, EMPTY, [], 1)
  }

  function Run(metric: Metric, registered: bool, events: seq<Event>): Garage {
    if events == [] then Initial(registered)
    else Step(metric, Run(metric, registered, events[..|events| - 1]), events[|events| - 1])
  }

  /** The metres of the completed windows. */
  function CompletedMeters(calibrations: seq<Calibration>): real {
    if calibrations == [] then 0.0
    else
      var n := |calibrations| - 1;
      CompletedMeters(calibrations[..n]) + CompletedBy(calibrations[n])
  }

  function CompletedBy(calibration: Calibration): real {
    if calibration.status.Completed? then calibration.distanceMeters.UnwrapOr(0.0) else 0.0
  }

  /** What a row says of itself when the odometer stands at `total`: windows lie within what
      was driven, and a completed distance is exactly end minus start. */
  predicate RowOk(c: Calibration, total: real) {
    && 0.0 <= c.startMeters <= total
    && (c.status.Completed? ==>
          && c.endMeters.Some? && c.startMeters <= c.endMeters.value <= total
          && c.distanceMeters == Some(c.endMeters.value - c.startMeters))
  }

  /** A window that is not the newest has ended, and ended before the next ones began. */
  predicate Before(c: Calibration, later: Calibration) {
    && !c.status.Active?
    && c.id < later.id
    && (c.status.Completed? ==> c.endMeters.Some? && c.endMeters.value <= later.startMeters)
  }

  ghost predicate Invariant(garage: Garage) {
    && (garage.device.odometer.Some? ==> garage.device.odometer.value.total >= 0.0)
    && (forall i :: 0 <= i < |garage.calibrations| ==>
          RowOk(garage.calibrations[i], TrackedMeters(garage.device)) && garage.calibrations[i].id < garage.nextId)
    && (forall i, j :: 0 <= i < j < |garage.calibrations| ==> Before(garage.calibrations[i], garage.calibrations[j]))
  }

  lemma LocateKeepsInvariant(metric: Metric, garage: Garage, point: Point)
    requires Invariant(garage)
    ensures Invariant(garage.(device := Process(metric, garage.device, point).0))
  {
    hide AcceptedSegment;
    if garage.device.odometer.Some? {
      SegmentBounds(metric, garage.device.odometer.value.last, point);
    }
  }

  lemma OpenKeepsInvariant(garage: Garage, calibrations: seq<Calibration>, now: Instant, fuelType: Option<string>)
    requires Invariant(garage.(calibrations := calibrations)) && !HasActive(calibrations)
    ensures Invariant(garage.(calibrations := calibrations + [Opened(garage, now, fuelType)],
                              nextId := garage.nextId + 1))
  {
    var all := calibrations + [Opened(garage, now, fuelType)];
    forall i, j | 0 <= i < j < |all| ensures Before(all[i], all[j]) {
      assert RowOk(calibrations[i], TrackedMeters(garage.device));
    }
  }

  lemma InvalidateKeepsInvariant(garage: Garage)
    requires Invariant(garage)
    ensures Invariant(garage.(calibrations := Invalidate(garage.calibrations)))
    ensures !HasActive(Invalidate(garage.calibrations))
  {
    var before, after := garage.calibrations, Invalidate(garage.calibrations);
    forall i | 0 <= i < |after| ensures RowOk(after[i], TrackedMeters(garage.device)) {
      assert RowOk(before[i], TrackedMeters(garage.device));
    }
    forall i, j | 0 <= i < j < |after| ensures Before(after[i], after[j]) {
      assert Before(before[i], before[j]);
    }
  }

  /** Completing changes only the newest row, and its distance needs no clamp. */
  lemma CompleteKeepsInvariant(garage: Garage, id: int, request: Request, now: Instant)
    requires Invariant(garage)
    ensures Invariant(Complete(garage, id, request, now).0)
    ensures Complete(garage, id, request, now).1.Ok? ==>
              exists i :: 0 <= i < |garage.calibrations| && garage.calibrations[i].id == id
                       && Complete(garage, id, request, now).0.calibrations[i].distanceMeters ==
                          Some(TrackedMeters(garage.device) - garage.calibrations[i].startMeters)
  {
    if Complete(garage, id, request, now).1.Ok? {
      var i := FindActive(garage.calibrations, id).value;
      var total := TrackedMeters(garage.device);
      var after := Complete(garage, id, request, now).0.calibrations;
      assert RowOk(garage.calibrations[i], total);
      assert RowOk(after[i], total);
      forall j, k | 0 <= j < k < |after| ensures Before(after[j], after[k]) {
        assert Before(garage.calibrations[j], garage.calibrations[k]);
      }
      assert forall j :: 0 <= j < |after| ==> j != i ==> after[j] == garage.calibrations[j];
    }
  }

  lemma StepKeepsInvariant(metric: Metric, garage: Garage, event: Event)
    requires Invariant(garage)
    ensures Invariant(Step(metric, garage, event))
  {
    hide Invariant, HasActive, Process, Complete;
    match event
    case Locate(point) => LocateKeepsInvariant(metric, garage, point);
    case StartRequest(now, fuelType) =>
      if Start(garage, now, fuelType).1.Ok? {
        assert garage.(calibrations := garage.calibrations) == garage;
        OpenKeepsInvariant(garage, garage.calibrations, now, NormalizeFuelType(fuelType).value);
      }
    case RestartRequest(now, fuelType) =>
      if Restart(garage, now, fuelType).1.Ok? {
        InvalidateKeepsInvariant(garage);
        OpenKeepsInvariant(garage, Invalidate(garage.calibrations), now, NormalizeFuelType(fuelType).value);
      }
    case CompleteRequest(id, request, now) => CompleteKeepsInvariant(garage, id, request, now);
  }

  lemma {:induction false} RunKeepsInvariant(metric: Metric, registered: bool, events: seq<Event>)
    ensures Invariant(Run(metric, registered, events))
  {
    hide Invariant, Step;
    if events == [] {
      InitialInvariant(registered);
    } else {
      RunKeepsInvariant(metric, registered, events[..|events| - 1]);
      StepKeepsInvariant(metric, Run(metric, registered, events[..|events| - 1]), events[|events| - 1]);
    }
  }

  lemma InitialInvariant(registered: bool)
    ensures Invariant(Initial(registered))
  {}

  /** Under any interleaving of locations with start, restart and complete: at most one
      calibration is active, only the newest row can be; every completed window's distance
      is its end minus its start, so the clamp never acted; and the windows together cover
      no more than was driven. */
  lemma CalibrationWindows(metric: Metric, registered: bool, events: seq<Event>)
    ensures var garage := Run(metric, registered, events);
            var rows := garage.calibrations;
            && (forall i, j :: 0 <= i < j < |rows| ==> !rows[i].status.Active? || !rows[j].status.Active?)
            && (forall i :: 0 <= i < |rows| && rows[i].status.Completed? ==>
                  && rows[i].endMeters.Some?
                  && rows[i].distanceMeters == Some(rows[i].endMeters.value - rows[i].startMeters)
                  && 0.0 <= rows[i].distanceMeters.value)
            && CompletedMeters(rows) <= TrackedMeters(garage.device)
  {
    hide Run;
    var garage := Run(metric, registered, events);
    RunKeepsInvariant(metric, registered, events);
    var rows := garage.calibrations;
    WindowsFit(rows, TrackedMeters(garage.device));
    forall i | 0 <= i < |rows| && rows[i].status.Active? ensures i == |rows| - 1 {
      OnlyNewestIsActive(rows, i);
    }
    assert forall i :: 0 <= i < |rows| ==> RowOk(rows[i], TrackedMeters(garage.device));
  }

  lemma OnlyNewestIsActive(rows: seq<Calibration>, i: nat)
    requires forall i, j :: 0 <= i < j < |rows| ==> Before(rows[i], rows[j])
    requires i < |rows| && rows[i].status.Active?
    ensures i == |rows| - 1
  {
    if i < |rows| - 1 {
      EarlierHasEnded(rows, i, |rows| - 1);
    }
  }

  lemma EarlierHasEnded(rows: seq<Calibration>, i: nat, j: nat)
    requires forall i, j :: 0 <= i < j < |rows| ==> Before(rows[i], rows[j])
    requires i < j < |rows|
    ensures !rows[i].status.Active?
  {
    assert Before(rows[i], rows[j]);
  }

  lemma {:induction false} WindowsFit(rows: seq<Calibration>, total: real)
    requires total >= 0.0
    requires forall i :: 0 <= i < |rows| ==> RowOk(rows[i], total)
    requires forall i, j :: 0 <= i < j < |rows| ==> Before(rows[i], rows[j])
    ensures CompletedMeters(rows) <= total
    decreases |rows|
  {
    if rows != [] {
      var n := |rows| - 1;
      var last := rows[n];
      assert RowOk(last, total);
      if last.status.Completed? {
        WindowsFitBefore(rows[..n], last.startMeters);
      } else {
        WindowsFit(rows[..n], total);
      }
    }
  }

  /** Completed windows before a start fit into what was driven by then. */
  lemma {:induction false} WindowsFitBefore(rows: seq<Calibration>, limit: real)
    requires limit >= 0.0
    requires forall i :: 0 <= i < |rows| ==> rows[i].startMeters >= 0.0
    requires forall i :: 0 <= i < |rows| && rows[i].status.Completed? ==>
               rows[i].endMeters.Some? && rows[i].endMeters.value <= limit
               && rows[i].distanceMeters == Some(rows[i].endMeters.value - rows[i].startMeters)
    requires forall i, j :: 0 <= i < j < |rows| ==> Before(rows[i], rows[j])
    ensures CompletedMeters(rows) <= limit
    decreases |rows|
  {
    if rows != [] {
      var n := |rows| - 1;
      var last := rows[n];
      if last.status.Completed? {
        WindowsFitBefore(rows[..n], last.startMeters);
      } else {
        WindowsFitBefore(rows[..n], limit);
      }
    }
  }
}
