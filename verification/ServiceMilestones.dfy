/** The service page: kilometres tracked, and the milestones they reached. */
module ServiceMilestones {
  import opened ServiceDistance

  /** The machine epsilon of a double, as an exact number. */
  const EPSILON := 1.0 / 4_503_599_627_370_496.0

  const SHOWN := 20

  datatype Milestone = Milestone(number: int, achievedOn: int, intervalKm: int)

  function ServiceInterval(milestoneKm: int): int {
    if milestoneKm % 20_000 == 0 then 20_000
    else if milestoneKm % 10_000 == 0 then 10_000
    else if milestoneKm % 5_000 == 0 then 5_000
    else if milestoneKm % 3_000 == 0 then 3_000
    else 1_000
  }

  /** Kilometres after the first `k` rows. */
  function Cumulative(daily: seq<DailyRow>, k: nat): real
    requires k <= |daily|
  {
    if k == 0 then 0.0 else Cumulative(daily, k - 1) + daily[k - 1].meters / 1000.0
  }

  predicate Reached(daily: seq<DailyRow>, k: nat, number: int)
    requires k <= |daily|
  {
    Cumulative(daily, k) + EPSILON >= (number * 1000) as real
  }

  /** None of the first `k` rows reaches the milestone. */
  ghost predicate NotReachedBy(daily: seq<DailyRow>, k: nat, number: int)
    requires k <= |daily|
  {
    forall j :: 1 <= j <= k ==> !Reached(daily, j, number)
  }

  /** The `k`-th row is the first to reach the milestone. */
  ghost predicate FirstReachedBy(daily: seq<DailyRow>, k: int, number: int) {
    1 <= k <= |daily| && Reached(daily, k, number) && NotReachedBy(daily, k - 1, number)
  }

  ghost predicate Dated(daily: seq<DailyRow>, milestone: Milestone) {
    && milestone.intervalKm == ServiceInterval(milestone.number * 1000)
    && exists k :: FirstReachedBy(daily, k, milestone.number) && milestone.achievedOn == daily[k - 1].date
  }

  /** The milestones from `last` downward, at most twenty of them, each with its date. */
  ghost predicate NewestFrom(daily: seq<DailyRow>, last: int, milestones: seq<Milestone>) {
    && |milestones| == (if last < SHOWN then last else SHOWN)
    && forall k :: 0 <= k < |milestones| ==> milestones[k].number == last - k && Dated(daily, milestones[k])
  }

  /** `last` is the highest milestone, up to `completed`, that the rows reach. */
  ghost predicate HighestReached(daily: seq<DailyRow>, completed: int, last: int) {
    && 0 <= last && (last <= completed || last == 0)
    && (last < completed ==> NotReachedBy(daily, |daily|, last + 1))
  }

  /** `all` are the milestones 1, 2, ... with their dates. */
  ghost predicate Ascending(daily: seq<DailyRow>, all: seq<Milestone>) {
    forall k :: 0 <= k < |all| ==> all[k].number == k + 1 && Dated(daily, all[k])
  }

  method BuildServiceMilestones(daily: seq<DailyRow>, completed: int) returns (milestones: seq<Milestone>)
    ensures exists last :: HighestReached(daily, completed, last) && NewestFrom(daily, last, milestones)
  {
    hide Dated, Ascending, NotReachedBy, Reached, NewestFrom;
    var cumulativeKm := 0.0;
    var next := 1;
    var all: seq<Milestone> := [];
    NothingYet(daily);
    for i := 0 to |daily|
      invariant cumulativeKm == Cumulative(daily, i)
      invariant next == |all| + 1 && (next - 1 <= completed || next == 1)
      invariant Ascending(daily, all) && (next <= completed ==> NotReachedBy(daily, i, next))
    {
      cumulativeKm := cumulativeKm + daily[i].meters / 1000.0;
      while next <= completed && cumulativeKm + EPSILON >= (next * 1000) as real
        invariant next == |all| + 1 && (next - 1 <= completed || next == 1)
        invariant Ascending(daily, all) && (next <= completed ==> NotReachedBy(daily, i, next))
      {
        var milestone := Milestone(next, daily[i].date, ServiceInterval(next * 1000));
        FirstDay(daily, i + 1, milestone);
        AddMilestone(daily, all, milestone);
        all := all + [milestone];
        HigherIsLater(daily, i, next, next + 1);
        next := next + 1;
      }
      if next <= completed {
        NotYet(daily, i + 1, next);
      }
    }
    milestones := Newest(all);
    NewestAreNewest(daily, all);
    assert HighestReached(daily, completed, next - 1);
  }

  /** The last twenty, newest first. */
  function Newest(all: seq<Milestone>): (newest: seq<Milestone>)
    ensures |newest| == if |all| < SHOWN then |all| else SHOWN
    ensures forall k :: 0 <= k < |newest| ==> newest[k] == all[|all| - 1 - k]
  {
    seq(if |all| < SHOWN then |all| else SHOWN, k requires 0 <= k < |all| => all[|all| - 1 - k])
  }

  lemma NothingYet(daily: seq<DailyRow>)
    ensures Ascending(daily, []) && NotReachedBy(daily, 0, 1)
  {}

  lemma FirstDay(daily: seq<DailyRow>, k: nat, milestone: Milestone)
    requires 1 <= k <= |daily| && milestone.achievedOn == daily[k - 1].date
    requires milestone.intervalKm == ServiceInterval(milestone.number * 1000)
    requires Cumulative(daily, k) + EPSILON >= (milestone.number * 1000) as real
    requires NotReachedBy(daily, k - 1, milestone.number)
    ensures Dated(daily, milestone)
  {
    hide NotReachedBy, ServiceInterval;
    assert FirstReachedBy(daily, k, milestone.number);
  }

  lemma AddMilestone(daily: seq<DailyRow>, all: seq<Milestone>, milestone: Milestone)
    requires Ascending(daily, all) && milestone.number == |all| + 1 && Dated(daily, milestone)
    ensures Ascending(daily, all + [milestone])
  {
    hide Dated;
  }

  lemma HigherIsLater(daily: seq<DailyRow>, k: nat, number: int, higher: int)
    requires k <= |daily| && NotReachedBy(daily, k, number) && number <= higher
    ensures NotReachedBy(daily, k, higher)
  {
    forall j | 1 <= j <= k ensures !Reached(daily, j, higher) {
      assert !Reached(daily, j, number);
      assert (number * 1000) as real <= (higher * 1000) as real;
    }
  }

  /** The guard of the inner loop is false: this row does not reach the next milestone. */
  lemma NotYet(daily: seq<DailyRow>, k: nat, number: int)
    requires 1 <= k <= |daily| && NotReachedBy(daily, k - 1, number)
    requires Cumulative(daily, k) + EPSILON < (number * 1000) as real
    ensures NotReachedBy(daily, k, number)
  {}

  lemma NewestAreNewest(daily: seq<DailyRow>, all: seq<Milestone>)
    requires Ascending(daily, all)
    ensures NewestFrom(daily, |all|, Newest(all))
  {
    hide Dated;
  }

  // ---- What the page shows ----

  datatype ServicePage = ServicePage(
    totalKm: real, nextMilestoneKm: int, remainingKm: real, nextIntervalKm: int, milestones: seq<Milestone>)

  function ClampRow(row: DailyRow): DailyRow {
    if row.meters < 0.0 then row.(meters := 0.0) else row
  }

  function Clamp(daily: seq<DailyRow>): seq<DailyRow> {
    seq(|daily|, i requires 0 <= i < |daily| => ClampRow(daily[i]))
  }

  /** The tracked kilometres of the odometer, never negative. */
  function TrackedKm(device: Device): real {
    if device.odometer.Some? && device.odometer.value.total > 0.0 then device.odometer.value.total / 1000.0 else 0.0
  }

  /** Milestones passed, one every thousand kilometres. */
  function Completed(device: Device): int {
    (TrackedKm(device) / 1000.0).Floor
  }

  /** The page a device should get: its kilometres, the next milestone and the way to it, and
      the newest of the milestones completed. */
  ghost predicate IsPageOf(device: Device, page: ServicePage) {
    && page.totalKm == TrackedKm(device)
    && page.nextMilestoneKm == 1000 * (Completed(device) + 1)
    && page.remainingKm == page.nextMilestoneKm as real - page.totalKm
    && page.nextIntervalKm == ServiceInterval(page.nextMilestoneKm)
    && NewestFrom(device.daily, Completed(device), page.milestones)
  }

  method GetDeviceService(device: Device) returns (page: ServicePage)
    ensures page.totalKm == TrackedKm(device)
    ensures page.nextMilestoneKm == 1000 * (Completed(device) + 1)
    ensures page.remainingKm == page.nextMilestoneKm as real - page.totalKm && 0.0 < page.remainingKm <= 1000.0
    ensures page.nextIntervalKm == ServiceInterval(page.nextMilestoneKm)
    ensures exists last :: HighestReached(Clamp(device.daily), Completed(device), last)
                        && NewestFrom(Clamp(device.daily), last, page.milestones)
    ensures Consistent(device) && NonNegative(device.daily) ==> IsPageOf(device, page)
    ensures forall metric, points :: device == ProcessAll(metric, EMPTY, points) ==> IsPageOf(device, page)
  {
    hide Cumulative, Dated, Reached, HighestReached, NewestFrom, ProcessAll, Consistent, NonNegative;
    var totalMeters := if device.odometer.Some? then device.odometer.value.total else 0.0;
    if totalMeters < 0.0 {
      totalMeters := 0.0;
    }
    var daily := Clamp(device.daily);
    var totalKm := totalMeters / 1000.0;
    var completed := (totalKm / 1000.0).Floor;
    var nextKm := (completed + 1) * 1000;
    var remainingKm := nextKm as real - totalKm;
    FloorOfThousands(totalKm);
    if remainingKm < 0.0 {
      remainingKm := 0.0;
    }
    var milestones := BuildServiceMilestones(daily, completed);
    page := ServicePage(totalKm, nextKm, remainingKm, ServiceInterval(nextKm), milestones);
    if Consistent(device) && NonNegative(device.daily) {
      CompletedAreReached(device, milestones);
    }
    forall metric, points | device == ProcessAll(metric, EMPTY, points) ensures IsPageOf(device, page) {
      ReachedStateIsConsistent(metric, points);
    }
  }

  lemma CompletedAreReached(device: Device, milestones: seq<Milestone>)
    requires Consistent(device) && NonNegative(device.daily)
    requires exists last :: HighestReached(Clamp(device.daily), Completed(device), last)
                         && NewestFrom(Clamp(device.daily), last, milestones)
    ensures NewestFrom(device.daily, Completed(device), milestones)
  {
    hide Cumulative, Dated, Reached, HighestReached, NewestFrom;
    var last :| HighestReached(Clamp(device.daily), Completed(device), last)
             && NewestFrom(Clamp(device.daily), last, milestones);
    assert Clamp(device.daily) == device.daily;
    SumNonNegative(device.daily);
    AllAreReached(device.daily, TrackedKm(device), Completed(device), last);
  }

  /** The largest of the five intervals that divides the kilometres of a milestone. */
  lemma IntervalIsLargest(milestoneKm: int, other: int)
    requires milestoneKm % 1_000 == 0
    ensures var interval := ServiceInterval(milestoneKm);
            && interval in {1_000, 3_000, 5_000, 10_000, 20_000} && milestoneKm % interval == 0
            && (other in {1_000, 3_000, 5_000, 10_000, 20_000} && milestoneKm % other == 0 ==> other <= interval)
  {}

  /** The metres after `k` rows reach a milestone, one for each million, up to the machine epsilon
      of a double in kilometres. */
  predicate MetersReach(daily: seq<DailyRow>, k: nat, number: int)
    requires k <= |daily|
  {
    Sum(daily[..k]) + 1000.0 / 4_503_599_627_370_496.0 >= number as real * 1_000_000.0
  }

  /** The milestone is dated on the first row by which the metres reach it. */
  ghost predicate DatedInMeters(daily: seq<DailyRow>, milestone: Milestone) {
    exists k: nat :: 1 <= k <= |daily| && milestone.achievedOn == daily[k - 1].date
             && MetersReach(daily, k, milestone.number)
             && forall j :: 1 <= j < k ==> !MetersReach(daily, j, milestone.number)
  }

  lemma ReachedMeansMeters(daily: seq<DailyRow>, k: nat, number: int)
    requires k <= |daily|
    ensures Reached(daily, k, number) <==> MetersReach(daily, k, number)
  {
    CumulativeIsSum(daily, k);
    assert (number * 1000) as real == number as real * 1000.0;
  }

  lemma DatedMeansMeters(daily: seq<DailyRow>, milestone: Milestone)
    requires Dated(daily, milestone)
    ensures DatedInMeters(daily, milestone)
  {
    hide Reached, MetersReach, ServiceInterval;
    var k :| FirstReachedBy(daily, k, milestone.number) && milestone.achievedOn == daily[k - 1].date;
    forall j: nat | 1 <= j <= k
      ensures Reached(daily, j, milestone.number) <==> MetersReach(daily, j, milestone.number) {
      ReachedMeansMeters(daily, j, milestone.number);
    }
  }

  /** A device has one page. */
  lemma PageIsUnique(device: Device, page: ServicePage, other: ServicePage)
    requires IsPageOf(device, page) && IsPageOf(device, other)
    ensures page == other
  {
    hide Reached, ServiceInterval;
    forall k | 0 <= k < |page.milestones| ensures page.milestones[k] == other.milestones[k] {
      OneDate(device.daily, page.milestones[k], other.milestones[k]);
    }
    assert page.milestones == other.milestones;
  }

  lemma OneDate(daily: seq<DailyRow>, a: Milestone, b: Milestone)
    requires a.number == b.number && Dated(daily, a) && Dated(daily, b)
    ensures a == b
  {
    hide Reached, ServiceInterval;
    var i :| FirstReachedBy(daily, i, a.number) && a.achievedOn == daily[i - 1].date;
    var j :| FirstReachedBy(daily, j, b.number) && b.achievedOn == daily[j - 1].date;
    assert i == j;
  }

  /** Milestones agree with the odometer: whatever points a device sent, in whatever order, its
      page has the newest min(completed, 20) of the milestones that the odometer completed, one
      every million metres, numbered downward, each dated on the first date that reached it. */
  lemma PageOfReachedState(metric: Metric, points: seq<Point>, page: ServicePage)
    requires IsPageOf(ProcessAll(metric, EMPTY, points), page)
    ensures var device := ProcessAll(metric, EMPTY, points);
            var total := if device.odometer.Some? then device.odometer.value.total else 0.0;
            var completed := (total / 1_000_000.0).Floor;
            && 0.0 <= total == page.totalKm * 1000.0
            && |page.milestones| == (if completed < 20 then completed else 20)
            && (forall k :: 0 <= k < |page.milestones| ==>
                  && page.milestones[k].number == completed - k
                  && Dated(device.daily, page.milestones[k]) && DatedInMeters(device.daily, page.milestones[k]))
            && (forall j, k :: 0 <= j <= k < |page.milestones| ==>
                  page.milestones[j].achievedOn >= page.milestones[k].achievedOn)
  {
    hide Dated, DatedInMeters;
    var device := ProcessAll(metric, EMPTY, points);
    ReachedStateIsConsistent(metric, points);
    hide ProcessAll;
    forall k | 0 <= k < |page.milestones| ensures DatedInMeters(device.daily, page.milestones[k]) {
      DatedMeansMeters(device.daily, page.milestones[k]);
    }
    SumNonNegative(device.daily);
    var total := if device.odometer.Some? then device.odometer.value.total else 0.0;
    assert total / 1000.0 / 1000.0 == total / 1_000_000.0;
    forall j, k | 0 <= j <= k < |page.milestones|
      ensures page.milestones[j].achievedOn >= page.milestones[k].achievedOn {
      DatesDescend(device.daily, Completed(device), page.milestones, j, k);
    }
  }

  lemma FloorOfThousands(km: real)
    ensures var n := (km / 1000.0).Floor; (n * 1000) as real <= km < ((n + 1) * 1000) as real
  {}

  lemma {:induction false} SumNonNegative(daily: seq<DailyRow>)
    requires NonNegative(daily)
    ensures Sum(daily) >= 0.0
  {
    if daily != [] {
      SumNonNegative(daily[1..]);
    }
  }

  lemma {:induction false} CumulativeIsSum(daily: seq<DailyRow>, k: nat)
    requires k <= |daily|
    ensures Cumulative(daily, k) == Sum(daily[..k]) / 1000.0
  {
    if k > 0 {
      CumulativeIsSum(daily, k - 1);
      assert daily[..k] == daily[..k - 1] + [daily[k - 1]];
      SumAppend(daily[..k - 1], daily[k - 1]);
    }
  }

  lemma {:induction false} SumAppend(daily: seq<DailyRow>, row: DailyRow)
    ensures Sum(daily + [row]) == Sum(daily) + row.meters
  {
    if daily == [] {
      assert Sum([row]) == row.meters + Sum([]);
    } else {
      assert (daily + [row])[1..] == daily[1..] + [row];
      SumAppend(daily[1..], row);
    }
  }

  /** When the rows sum to the total, the last row reaches every completed milestone. */
  lemma AllAreReached(daily: seq<DailyRow>, totalKm: real, completed: int, last: int)
    requires Sum(daily) == totalKm * 1000.0 && totalKm >= 0.0 && completed == (totalKm / 1000.0).Floor
    requires HighestReached(daily, completed, last)
    ensures last == completed
  {
    FloorOfThousands(totalKm);
    CumulativeIsSum(daily, |daily|);
    assert daily[..|daily|] == daily;
    if last < completed && daily != [] {
      assert ((last + 1) * 1000) as real <= (completed * 1000) as real;
      NotReachedAtAll(daily, last + 1);
    }
  }

  lemma NotReachedAtAll(daily: seq<DailyRow>, number: int)
    requires daily != [] && NotReachedBy(daily, |daily|, number)
    ensures Cumulative(daily, |daily|) + EPSILON < (number * 1000) as real
  {
    assert !Reached(daily, |daily|, number);
  }

  /** Newer milestones are never dated before older ones. */
  lemma DatesDescend(daily: seq<DailyRow>, last: int, milestones: seq<Milestone>, j: nat, k: nat)
    requires Sorted(daily) && NewestFrom(daily, last, milestones) && j <= k < |milestones|
    ensures milestones[j].achievedOn >= milestones[k].achievedOn
  {
    hide Reached, ServiceInterval;
    assert Dated(daily, milestones[j]) && Dated(daily, milestones[k]);
    var newer :| FirstReachedBy(daily, newer, milestones[j].number)
              && milestones[j].achievedOn == daily[newer - 1].date;
    var older :| FirstReachedBy(daily, older, milestones[k].number)
              && milestones[k].achievedOn == daily[older - 1].date;
    ReachedLess(daily, newer, milestones[j].number, milestones[k].number);
    assert older <= newer;
  }

  lemma ReachedLess(daily: seq<DailyRow>, k: nat, number: int, lower: int)
    requires k <= |daily| && lower <= number && Reached(daily, k, number)
    ensures Reached(daily, k, lower)
  {
    assert (lower * 1000) as real <= (number * 1000) as real;
  }

  /** Whatever points a device sent, its rows sum to its total and none is negative. */
  lemma ReachedStateIsConsistent(metric: Metric, points: seq<Point>)
    ensures var device := ProcessAll(metric, EMPTY, points);
            Consistent(device) && NonNegative(device.daily)
  {
    TotalIsSumOfDays(metric, points);
    RowsNonNegative(metric, points);
  }
}
