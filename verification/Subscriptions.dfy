/** Reminders, fines and the withdrawal mark of one subscription: the action due, the
    sanction row it leaves behind, and the view shown to operators. */
module Subscriptions {
  import opened Common
  import opened WibTime

  const PRE_EXPIRY_REMINDER_DAYS := 5
  const DAILY_FINE_IDR := 1_000
  const MAX_FINE_DAYS := 7

  datatype Action =
    | NoAction
    | PreExpiryReminder(daysUntilExpiry: int)
    | ExpiryDayReminder
    | OverdueReminder(overdueDays: int, fineIdr: int)
    | MarkWithdrawalRequired(overdueDays: int, fineIdr: int)
  {
    /** Marking sends nothing. */
    predicate SendsMessage() {
      PreExpiryReminder? || ExpiryDayReminder? || OverdueReminder?
    }
  }

  datatype Sanction = Sanction(
    remindedFor: Option<Instant>,
    preExpiryDay: Option<int>,
    overdueDay: Option<int>,
    fineIdr: int,
    withdrawalRequired: bool,
    withdrawalRequiredAt: Option<Instant>,
    resolvedAt: Option<Instant>)

  function DaysUntilExpiry(end: Instant, now: Instant): int {
    WibDate(end) - WibDate(now)
  }

  function OverdueDays(end: Instant, now: Instant): int {
    var days := WibDate(now) - WibDate(end);
    if days > 0 then days else 0
  }

  function FineFor(overdueDays: int): int {
    (if overdueDays < 0 then 0 else if overdueDays > MAX_FINE_DAYS then MAX_FINE_DAYS else overdueDays) * DAILY_FINE_IDR
  }

  function ResolveAction(
      end: Instant, now: Instant, remindedFor: Option<Instant>, preExpiryDay: Option<int>,
      overdueDay: Option<int>, withdrawalRequired: bool): Action
  {
    var days := DaysUntilExpiry(end, now);
    var sentForPeriod := remindedFor == Some(end);
    var legacySent := sentForPeriod && preExpiryDay.None? && days == PRE_EXPIRY_REMINDER_DAYS;
    var overdue := OverdueDays(end, now);
    if 1 <= days <= PRE_EXPIRY_REMINDER_DAYS && (!sentForPeriod || (preExpiryDay != Some(days) && !legacySent)) then
      PreExpiryReminder(days)
    else if days == 0 && (!sentForPeriod || preExpiryDay != Some(0)) then ExpiryDayReminder
    else if overdue == 0 then NoAction
    else if overdue <= MAX_FINE_DAYS then
      if overdueDay != Some(overdue) then OverdueReminder(overdue, FineFor(overdue)) else NoAction
    else if !withdrawalRequired then MarkWithdrawalRequired(overdue, FineFor(overdue))
    else NoAction
  }

  /** The overdue day a run believes: forgotten when it belongs to a resolved or another period. */
  function BelievedOverdueDay(end: Instant, row: Option<Sanction>): Option<int> {
    if row.None? || row.value.resolvedAt.Some? || row.value.remindedFor != Some(end) then None
    else row.value.overdueDay
  }

  function RemindedFor(row: Option<Sanction>): Option<Instant> {
    if row.Some? then row.value.remindedFor else None
  }

  function PreExpiryDay(row: Option<Sanction>): Option<int> {
    if row.Some? then row.value.preExpiryDay else None
  }

  predicate WithdrawalRequired(row: Option<Sanction>) {
    row.Some? && row.value.withdrawalRequired
  }

  /** What the maintenance job decides for a stored row, absent or present. */
  function DueAction(end: Instant, row: Option<Sanction>, now: Instant): Action {
    ResolveAction(end, now, RemindedFor(row), PreExpiryDay(row), BelievedOverdueDay(end, row), WithdrawalRequired(row))
  }

  function Coalesce<T>(a: Option<T>, b: Option<T>): Option<T> {
    if a.Some? then a else b
  }

  /** Insert, or merge into the present row. */
  function Upsert(
      row: Option<Sanction>, remindedFor: Option<Instant>, preExpiryDay: Option<int>, overdueDay: Option<int>,
      fineIdr: int, withdrawalRequired: bool, withdrawalRequiredAt: Option<Instant>): Sanction
  {
    if row.None? then
      Sanction(remindedFor, preExpiryDay, overdueDay, fineIdr, withdrawalRequired, withdrawalRequiredAt, None)
    else
      var present := row.value;
      var distinct := remindedFor != present.remindedFor;
      Sanction(
        Coalesce(remindedFor, present.remindedFor),
        if distinct then preExpiryDay else Coalesce(preExpiryDay, present.preExpiryDay),
        if distinct then overdueDay else Coalesce(overdueDay, present.overdueDay),
        fineIdr,
        withdrawalRequired,
        Coalesce(withdrawalRequiredAt, present.withdrawalRequiredAt),
        None)
  }

  /** The pre-expiry day an overdue write repeats. */
  function CarriedDay(end: Instant, row: Option<Sanction>): Option<int> {
    if RemindedFor(row) == Some(end) then PreExpiryDay(row) else None
  }

  /** The row after an action is recorded. */
  function Recorded(end: Instant, row: Option<Sanction>, action: Action, now: Instant): Option<Sanction> {
    match action
    case NoAction => row
    case PreExpiryReminder(days) => Some(Upsert(row, Some(end), Some(days), None, 0, false, None))
    case ExpiryDayReminder => Some(Upsert(row, Some(end), Some(0), None, 0, false, None))
    case OverdueReminder(days, fine) =>
      Some(Upsert(row, Some(end), CarriedDay(end, row), Some(days), fine, false, None))
    case MarkWithdrawalRequired(days, fine) =>
      Some(Upsert(row, Some(end), CarriedDay(end, row), Some(days), fine, true, Some(now)))
  }

  /** What a paid order does to the row, if there is one. */
  function Resolved(row: Option<Sanction>, at: Instant): Option<Sanction> {
    if row.None? then None else Some(Sanction(None, None, None, 0, false, None, Some(at)))
  }

  /** What the merge keeps: a null never overwrites a period or a time of withdrawal, and within
      the same period it overwrites no day either; a new period takes both days as they come. */
  lemma NullsKeep(
      row: Sanction, remindedFor: Option<Instant>, preExpiryDay: Option<int>, overdueDay: Option<int>,
      fineIdr: int, withdrawalRequired: bool, withdrawalRequiredAt: Option<Instant>)
    ensures var merged := Upsert(Some(row), remindedFor, preExpiryDay, overdueDay, fineIdr,
                                 withdrawalRequired, withdrawalRequiredAt);
            && merged.remindedFor == (if remindedFor == None then row.remindedFor else remindedFor)
            && merged.withdrawalRequiredAt ==
               (if withdrawalRequiredAt == None then row.withdrawalRequiredAt else withdrawalRequiredAt)
            && (remindedFor == row.remindedFor ==>
                  && merged.preExpiryDay == (if preExpiryDay == None then row.preExpiryDay else preExpiryDay)
                  && merged.overdueDay == (if overdueDay == None then row.overdueDay else overdueDay))
            && (remindedFor != row.remindedFor ==>
                  merged.preExpiryDay == preExpiryDay && merged.overdueDay == overdueDay)
            && merged.fineIdr == fineIdr && merged.withdrawalRequired == withdrawalRequired && merged.resolvedAt == None
  {}

  // ---- The view ----

  datatype Stage = Current | PreExpiry | ExpiryDay | Overdue | Withdrawal

  datatype Lifecycle = Lifecycle(
    stage: Stage, day: Option<int>, reminderSent: Option<bool>, fineIdr: int, withdrawalRequired: bool)

  function LifecycleState(
      periodEnd: Option<Instant>, now: Instant, remindedFor: Option<Instant>, preExpiryDay: Option<int>,
      overdueDay: Option<int>, withdrawalRequired: bool, resolvedAt: Option<Instant>): Lifecycle
  {
    if periodEnd.None? then Lifecycle(Current, None, None, 0, withdrawalRequired)
    else
      var end := periodEnd.value;
      var days := DaysUntilExpiry(end, now);
      var matchesPeriod := remindedFor == Some(end);
      if days > PRE_EXPIRY_REMINDER_DAYS then Lifecycle(Current, None, None, 0, withdrawalRequired)
      else if days > 0 then
        var legacySent := matchesPeriod && preExpiryDay.None? && days == PRE_EXPIRY_REMINDER_DAYS;
        var sent := legacySent || (matchesPeriod && preExpiryDay == Some(days));
        Lifecycle(PreExpiry, Some(days), Some(sent), 0, withdrawalRequired)
      else if days == 0 then
        Lifecycle(ExpiryDay, Some(0), Some(matchesPeriod && preExpiryDay == Some(0)), 0, withdrawalRequired)
      else
        var overdue := OverdueDays(end, now);
        if overdue <= MAX_FINE_DAYS then
          Lifecycle(Overdue, Some(overdue), Some(resolvedAt.None? && matchesPeriod && overdueDay == Some(overdue)),
                    FineFor(overdue), withdrawalRequired)
        else Lifecycle(Withdrawal, Some(overdue), None, FineFor(overdue), withdrawalRequired)
  }

  function View(end: Instant, row: Option<Sanction>, now: Instant): Lifecycle {
    if row.None? then LifecycleState(Some(end), now, None, None, None, false, None)
    else
      var r := row.value;
      LifecycleState(Some(end), now, r.remindedFor, r.preExpiryDay, r.overdueDay, r.withdrawalRequired, r.resolvedAt)
  }

  /** For every stored row and time, the view reports an unsent reminder exactly when the job
      would send one, on the same day and with the same fine; and it shows an unmarked
      withdrawal exactly when the job would mark it. */
  lemma ViewAndJobAgree(end: Instant, row: Option<Sanction>, now: Instant)
    ensures var view, action := View(end, row, now), DueAction(end, row, now);
            && (view.reminderSent == Some(false) <==> action.SendsMessage())
            && (view.stage == Withdrawal && !view.withdrawalRequired <==> action.MarkWithdrawalRequired?)
            && (action.PreExpiryReminder? ==> view.day == Some(action.daysUntilExpiry) && view.fineIdr == 0)
            && (action.ExpiryDayReminder? ==> view.day == Some(0) && view.fineIdr == 0)
            && (action.OverdueReminder? ==> view.day == Some(action.overdueDays) && view.fineIdr == action.fineIdr)
            && (action.MarkWithdrawalRequired? ==>
                  view.day == Some(action.overdueDays) && view.fineIdr == action.fineIdr)
            && view.fineIdr == FineFor(OverdueDays(end, now))
  {
    hide WibDate;
  }

  // ---- The schedule within one period ----

  /** A visit of the job to the subscription, and whether its message, if any, went out. */
  datatype Visit = Visit(now: Instant, sent: bool)

  function Visited(end: Instant, row: Option<Sanction>, visit: Visit): Option<Sanction> {
    var action := DueAction(end, row, visit.now);
    if action.SendsMessage() && !visit.sent then row else Recorded(end, row, action, visit.now)
  }

  function AfterVisits(end: Instant, row: Option<Sanction>, visits: seq<Visit>): Option<Sanction> {
    if visits == [] then row
    else Visited(end, AfterVisits(end, row, visits[..|visits| - 1]), visits[|visits| - 1])
  }

  /** The fourteen slots of a period: five days before expiry, the expiry day, seven overdue
      days, and everything later. Slot 0 is the time before them. */
  function Slot(end: Instant, now: Instant): nat {
    var days := DaysUntilExpiry(end, now);
    if days > PRE_EXPIRY_REMINDER_DAYS then 0
    else if days >= -MAX_FINE_DAYS then PRE_EXPIRY_REMINDER_DAYS + 1 - days
    else LAST_SLOT
  }

  const LAST_SLOT := PRE_EXPIRY_REMINDER_DAYS + MAX_FINE_DAYS + 2

  /** What each slot is for. */
  function Scheduled(end: Instant, now: Instant): Action {
    var days := DaysUntilExpiry(end, now);
    if days > PRE_EXPIRY_REMINDER_DAYS then NoAction
    else if days > 0 then PreExpiryReminder(days)
    else if days == 0 then ExpiryDayReminder
    else if -days <= MAX_FINE_DAYS then OverdueReminder(-days, -days * DAILY_FINE_IDR)
    else MarkWithdrawalRequired(-days, MAX_FINE_DAYS * DAILY_FINE_IDR)
  }

  /** A row that knows nothing of the period: none, or one about another period. */
  predicate Fresh(end: Instant, row: Option<Sanction>) {
    RemindedFor(row) != Some(end) && !WithdrawalRequired(row)
  }

  /** The slot of a visit was served if it was not left to a message that failed. */
  predicate Serves(end: Instant, visit: Visit, slot: nat) {
    slot > 0 && Slot(end, visit.now) == slot && (visit.sent || slot == LAST_SLOT)
  }

  predicate InOrder(visits: seq<Visit>) {
    forall i, j :: 0 <= i < j < |visits| ==> visits[i].now <= visits[j].now
  }

  /** The row remembers exactly that `slot` was the last one served. */
  predicate Remembers(end: Instant, row: Option<Sanction>, slot: nat) {
    if slot == 0 then Fresh(end, row)
    else
      && RemindedFor(row) == Some(end)
      && row.value.resolvedAt.None?
      && (if slot <= PRE_EXPIRY_REMINDER_DAYS + 1 then
            row.value.preExpiryDay == Some(PRE_EXPIRY_REMINDER_DAYS + 1 - slot) && row.value.overdueDay.None?
          else slot < LAST_SLOT ==> row.value.overdueDay == Some(slot - PRE_EXPIRY_REMINDER_DAYS - 1))
      && row.value.withdrawalRequired == (slot == LAST_SLOT)
  }

  lemma DueAfter(end: Instant, row: Option<Sanction>, slot: nat, now: Instant)
    requires Remembers(end, row, slot) && slot <= Slot(end, now)
    ensures DueAction(end, row, now) == if slot < Slot(end, now) then Scheduled(end, now) else NoAction
  {
    hide WibDate;
  }

  lemma VisitRemembers(end: Instant, row: Option<Sanction>, slot: nat, visit: Visit)
    requires Remembers(end, row, slot) && slot <= Slot(end, visit.now)
    ensures var now := Slot(end, visit.now);
            Remembers(end, Visited(end, row, visit), if Serves(end, visit, now) then now else slot)
  {
    hide WibDate, DueAction;
    DueAfter(end, row, slot, visit.now);
  }

  /** The last slot served. */
  function LastServed(end: Instant, visits: seq<Visit>): nat {
    if visits == [] then 0
    else
      var last := visits[|visits| - 1];
      if Serves(end, last, Slot(end, last.now)) then Slot(end, last.now) else LastServed(end, visits[..|visits| - 1])
  }

  lemma SlotMonotone(end: Instant, s: Instant, t: Instant)
    requires s <= t
    ensures Slot(end, s) <= Slot(end, t)
  {
    WibDateMonotone(s, t);
    hide WibDate;
  }

  lemma {:induction false} LastServedBound(end: Instant, visits: seq<Visit>, now: Instant)
    requires InOrder(visits)
    requires forall i :: 0 <= i < |visits| ==> visits[i].now <= now
    ensures LastServed(end, visits) <= Slot(end, now)
    ensures forall i :: 0 <= i < |visits| && Serves(end, visits[i], Slot(end, visits[i].now)) ==>
              Slot(end, visits[i].now) <= LastServed(end, visits)
    ensures LastServed(end, visits) > 0 ==>
              exists i :: 0 <= i < |visits| && Serves(end, visits[i], LastServed(end, visits))
  {
    hide Slot, Serves;
    if visits != [] {
      var n := |visits| - 1;
      LastServedBound(end, visits[..n], visits[n].now);
      SlotMonotone(end, visits[n].now, now);
      if Serves(end, visits[n], Slot(end, visits[n].now)) {
        assert Serves(end, visits[n], LastServed(end, visits));
      } else if LastServed(end, visits[..n]) > 0 {
        var i :| 0 <= i < n && Serves(end, visits[..n][i], LastServed(end, visits[..n]));
        assert Serves(end, visits[i], LastServed(end, visits));
      }
    }
  }

  lemma {:induction false} VisitsRemember(end: Instant, row: Option<Sanction>, visits: seq<Visit>)
    requires Fresh(end, row) && InOrder(visits)
    ensures Remembers(end, AfterVisits(end, row, visits), LastServed(end, visits))
  {
    hide Slot, Serves, Visited;
    if visits == [] {
      assert Remembers(end, row, 0);
    } else {
      hide Remembers;
      var n := |visits| - 1;
      VisitsRemember(end, row, visits[..n]);
      LastServedBound(end, visits[..n], visits[n].now);
      VisitRemembers(end, AfterVisits(end, row, visits[..n]), LastServed(end, visits[..n]), visits[n]);
    }
  }

  /** The reminder schedule: whatever visits came before, in order, a visit is due the action
      its slot is for, unless an earlier visit served the same slot. Messages that failed are
      tried again within their slot, and nothing is done twice or out of its slot. */
  lemma ReminderSchedule(end: Instant, row: Option<Sanction>, visits: seq<Visit>, now: Instant)
    requires Fresh(end, row) && InOrder(visits + [Visit(now, true)])
    ensures var action := DueAction(end, AfterVisits(end, row, visits), now);
            if exists i :: 0 <= i < |visits| && Serves(end, visits[i], Slot(end, now))
            then action.NoAction?
            else action == Scheduled(end, now)
  {
    var all := visits + [Visit(now, true)];
    assert forall i :: 0 <= i < |visits| ==> all[i] == visits[i] && all[i].now <= all[|visits|].now;
    hide Remembers, DueAction;
    VisitsRemember(end, row, visits);
    LastServedBound(end, visits, now);
    DueAfter(end, AfterVisits(end, row, visits), LastServed(end, visits), now);
    if i :| 0 <= i < |visits| && Serves(end, visits[i], Slot(end, now)) {
      assert LastServed(end, visits) == Slot(end, now);
    } else {
      assert LastServed(end, visits) != Slot(end, now) || Slot(end, now) == 0;
    }
  }

  /** No slot is served twice by an action. */
  lemma EachSlotActsOnce(end: Instant, row: Option<Sanction>, visits: seq<Visit>, i: nat, j: nat)
    requires Fresh(end, row) && InOrder(visits)
    requires i < j < |visits|
    requires Serves(end, visits[i], Slot(end, visits[j].now))
    ensures DueAction(end, AfterVisits(end, row, visits[..j]), visits[j].now).NoAction?
  {
    hide DueAction, Serves, Slot;
    var before := visits[..j];
    assert before[i] == visits[i];
    ReminderSchedule(end, row, before, visits[j].now);
  }

  /** Run once every WIB day with messages going out, the job does the thirteen reminders and
      then the marking, each on its day, and nothing else before or after. */
  lemma DailyRuns(end: Instant, row: Option<Sanction>, visits: seq<Visit>, k: nat)
    requires Fresh(end, row) && InOrder(visits) && k < |visits|
    requires forall i :: 0 <= i < |visits| ==> visits[i].sent && WibDate(visits[i].now) == WibDate(visits[0].now) + i
    requires DaysUntilExpiry(end, visits[0].now) >= PRE_EXPIRY_REMINDER_DAYS
    ensures var action := DueAction(end, AfterVisits(end, row, visits[..k]), visits[k].now);
            var days := DaysUntilExpiry(end, visits[k].now);
            && days == DaysUntilExpiry(end, visits[0].now) - k
            && (days > 5 ==> action.NoAction?)
            && (1 <= days <= 5 ==> action == PreExpiryReminder(days))
            && (days == 0 ==> action == ExpiryDayReminder)
            && (-7 <= days <= -1 ==> action == OverdueReminder(-days, -days * 1_000))
            && (days == -8 ==> action == MarkWithdrawalRequired(8, 7_000))
            && (days < -8 ==> action.NoAction?)
  {
    var before := visits[..k];
    var now := visits[k].now;
    assert before + [Visit(now, true)] == visits[..k + 1];
    ReminderSchedule(end, row, before, now);
    hide WibDate, DueAction;
    if DaysUntilExpiry(end, now) < -8 {
      assert visits[k - 1] == before[k - 1];
      assert Serves(end, before[k - 1], Slot(end, now));
    } else if DaysUntilExpiry(end, now) <= 5 {
      forall i | 0 <= i < |before| ensures !Serves(end, before[i], Slot(end, now)) {
        assert before[i] == visits[i];
      }
    }
  }

  /** The slots in instants: five days before the local midnight that begins the expiry date,
      the expiry date itself, seven days after it, and all that follows. */
  lemma ScheduleInInstants(end: Instant, now: Instant, k: int)
    ensures var midnight, day := end - (end - 61_200_000_000) % 86_400_000_000, 86_400_000_000;
            && (now < midnight - 5 * day ==> Scheduled(end, now) == NoAction && Slot(end, now) == 0)
            && (1 <= k <= 5 && midnight - k * day <= now < midnight - (k - 1) * day ==>
                  Scheduled(end, now) == PreExpiryReminder(k) && Slot(end, now) == 6 - k)
            && (midnight <= now < midnight + day ==> Scheduled(end, now) == ExpiryDayReminder && Slot(end, now) == 6)
            && (1 <= k <= 7 && midnight + k * day <= now < midnight + (k + 1) * day ==>
                  Scheduled(end, now) == OverdueReminder(k, 1_000 * k) && Slot(end, now) == 6 + k)
            && (k >= 8 && midnight + k * day <= now < midnight + (k + 1) * day ==>
                  Scheduled(end, now) == MarkWithdrawalRequired(k, 7_000) && Slot(end, now) == 14)
  {
    MidnightsApart(end, now);
    hide WibDate;
  }

  /** What the view shows of the time: in instants again. */
  lemma ViewInInstants(end: Instant, row: Option<Sanction>, now: Instant, k: int)
    ensures var midnight, day := end - (end - 61_200_000_000) % 86_400_000_000, 86_400_000_000;
            var view := View(end, row, now);
            && view.withdrawalRequired == WithdrawalRequired(row)
            && (now < midnight - 5 * day ==>
                  view.stage == Current && view.day == None && view.reminderSent == None && view.fineIdr == 0)
            && (1 <= k <= 5 && midnight - k * day <= now < midnight - (k - 1) * day ==>
                  view.stage == PreExpiry && view.day == Some(k) && view.reminderSent.Some? && view.fineIdr == 0)
            && (midnight <= now < midnight + day ==>
                  view.stage == ExpiryDay && view.day == Some(0) && view.reminderSent.Some? && view.fineIdr == 0)
            && (1 <= k <= 7 && midnight + k * day <= now < midnight + (k + 1) * day ==>
                  view.stage == Overdue && view.day == Some(k) && view.reminderSent.Some? && view.fineIdr == 1_000 * k)
            && (k >= 8 && midnight + k * day <= now < midnight + (k + 1) * day ==>
                  view.stage == Withdrawal && view.day == Some(k) && view.reminderSent == None && view.fineIdr == 7_000)
  {
    MidnightsApart(end, now);
    hide WibDate;
  }

  /** A row of before the daily reminders names the period but no day: it stands for the
      reminder of the fifth day before expiry, and for no other. */
  lemma LegacyRowsKnowDayFive(end: Instant, row: Option<Sanction>, now: Instant, k: int)
    requires RemindedFor(row) == Some(end) && PreExpiryDay(row) == None && 1 <= k <= 5
    requires var midnight := end - (end - 61_200_000_000) % 86_400_000_000;
             midnight - k * 86_400_000_000 <= now < midnight - (k - 1) * 86_400_000_000
    ensures DueAction(end, row, now) == if k == 5 then NoAction else PreExpiryReminder(k)
    ensures View(end, row, now).reminderSent == Some(k == 5)
  {
    MidnightsApart(end, now);
    hide WibDate;
  }

  // ---- What the row says ----

  /** The last slot up to a bound that was served. */
  function LastServedUpTo(end: Instant, visits: seq<Visit>, bound: nat): nat {
    if visits == [] then 0
    else
      var last := visits[|visits| - 1];
      if Serves(end, last, Slot(end, last.now)) && Slot(end, last.now) <= bound then Slot(end, last.now)
      else LastServedUpTo(end, visits[..|visits| - 1], bound)
  }

  /** When the withdrawal was marked, if it was. */
  function MarkedAt(end: Instant, visits: seq<Visit>): Option<Instant> {
    if visits == [] then None
    else
      var before, last := visits[..|visits| - 1], visits[|visits| - 1];
      if Slot(end, last.now) == 14 && LastServed(end, before) < 14 then Some(last.now) else MarkedAt(end, before)
  }

  /** The row of a period whose last served slot is `last`, the last of those before expiry
      `early`, and whose withdrawal was marked at `marked`: the days of the last reminders before
      and after expiry, the fine of the last one, and the mark with its time. */
  predicate Says(end: Instant, row: Option<Sanction>, last: nat, early: nat, marked: Option<Instant>) {
    if last == 0 then Blank(row)
    else
      && row.Some? && row.value.remindedFor == Some(end) && row.value.resolvedAt == None
      && row.value.preExpiryDay == (if early == 0 then None else Some(6 - early))
      && (last <= 6 ==> row.value.overdueDay == None && row.value.fineIdr == 0)
      && (7 <= last <= 13 ==> row.value.overdueDay == Some(last - 6) && row.value.fineIdr == 1_000 * (last - 6))
      && (last >= 14 ==> row.value.overdueDay.Some? && row.value.fineIdr == 7_000)
      && row.value.withdrawalRequired == (last == 14)
      && row.value.withdrawalRequiredAt == marked
  }

  predicate Tells(end: Instant, row: Option<Sanction>, visits: seq<Visit>) {
    Says(end, row, LastServed(end, visits), LastServedUpTo(end, visits, 6), MarkedAt(end, visits))
  }

  /** What recording the action of a slot makes of the row. */
  lemma RecordedSays(end: Instant, row: Option<Sanction>, last: nat, early: nat, now: Instant)
    requires Says(end, row, last, early, None) && last < 14
    requires early <= 6 && (last <= 6 ==> early == last) && (last == 0 ==> early == 0)
    requires last < Slot(end, now)
    ensures var slot := Slot(end, now);
            Says(end, Recorded(end, row, Scheduled(end, now), now), slot, if slot <= 6 then slot else early,
                 if slot == 14 then Some(now) else None)
  {
    hide WibDate;
  }

  lemma VisitTells(end: Instant, row: Option<Sanction>, visits: seq<Visit>, visit: Visit)
    requires Tells(end, row, visits) && Remembers(end, row, LastServed(end, visits))
    requires LastServed(end, visits) <= Slot(end, visit.now)
    requires LastServed(end, visits) <= 6 ==> LastServedUpTo(end, visits, 6) == LastServed(end, visits)
    requires LastServedUpTo(end, visits, 6) <= 6
    requires LastServed(end, visits) < 14 ==> MarkedAt(end, visits) == None
    ensures Tells(end, Visited(end, row, visit), visits + [visit])
    ensures LastServed(end, visits + [visit]) <= 6 ==>
              LastServedUpTo(end, visits + [visit], 6) == LastServed(end, visits + [visit])
    ensures LastServedUpTo(end, visits + [visit], 6) <= 6
    ensures LastServed(end, visits + [visit]) < 14 ==> MarkedAt(end, visits + [visit]) == None
  {
    var last, slot := LastServed(end, visits), Slot(end, visit.now);
    OneMoreVisit(end, visits, visit);
    DueAfter(end, row, last, visit.now);
    SlotBound(end, visit.now);
    ScheduledSends(end, visit.now);
    RecordedNothing(end, row, visit.now);
    hide Slot, Scheduled, Says, DueAction, Remembers, LastServed, LastServedUpTo, MarkedAt, Recorded;
    if last < slot && Serves(end, visit, slot) {
      RecordedSays(end, row, last, LastServedUpTo(end, visits, 6), visit.now);
    }
  }

  /** Every slot but the last sends something, and the last marks. */
  lemma ScheduledSends(end: Instant, now: Instant)
    ensures Scheduled(end, now).NoAction? <==> Slot(end, now) == 0
    ensures Scheduled(end, now).MarkWithdrawalRequired? <==> Slot(end, now) == 14
  {
    hide WibDate;
  }

  lemma SlotBound(end: Instant, now: Instant)
    ensures Slot(end, now) <= 14
  {}

  lemma OneMoreVisit(end: Instant, visits: seq<Visit>, visit: Visit)
    ensures var slot, all := Slot(end, visit.now), visits + [visit];
            && LastServed(end, all) == (if Serves(end, visit, slot) then slot else LastServed(end, visits))
            && LastServedUpTo(end, all, 6) ==
               (if Serves(end, visit, slot) && slot <= 6 then slot else LastServedUpTo(end, visits, 6))
            && MarkedAt(end, all) ==
               (if slot == 14 && LastServed(end, visits) < 14 then Some(visit.now) else MarkedAt(end, visits))
  {
    hide Slot, Serves;
    assert (visits + [visit])[..|visits|] == visits;
  }

  /** After any visits in order, of a subscription whose row is blank after its payment, the row
      says exactly when it was last reminded, what is owed and since when withdrawal is due. */
  lemma {:induction false} RowTellsTheVisits(end: Instant, row: Option<Sanction>, visits: seq<Visit>)
    requires Blank(row) && InOrder(visits)
    ensures Tells(end, AfterVisits(end, row, visits), visits)
    ensures LastServed(end, visits) <= 6 ==> LastServedUpTo(end, visits, 6) == LastServed(end, visits)
    ensures LastServedUpTo(end, visits, 6) <= 6
    ensures LastServed(end, visits) < 14 ==> MarkedAt(end, visits) == None
  {
    hide Slot, Serves, Visited, Remembers, Tells;
    if visits == [] {
      assert Tells(end, row, visits) by { NothingToTell(end, row); }
    } else {
      var n := |visits| - 1;
      BlankIsFresh(end, row);
      RowTellsTheVisits(end, row, visits[..n]);
      VisitsRemember(end, row, visits[..n]);
      LastServedBound(end, visits[..n], visits[n].now);
      VisitTells(end, AfterVisits(end, row, visits[..n]), visits[..n], visits[n]);
      assert visits[..n] + [visits[n]] == visits;
    }
  }

  lemma NothingToTell(end: Instant, row: Option<Sanction>)
    requires Blank(row)
    ensures Tells(end, row, [])
  {}

  lemma BlankIsFresh(end: Instant, row: Option<Sanction>)
    requires Blank(row)
    ensures Fresh(end, row)
  {}

  // ---- Resetting is forgetting ----

  /** Rows no observer can tell apart. */
  predicate Alike(a: Option<Sanction>, b: Option<Sanction>) {
    a == b || (Blank(a) && Blank(b))
  }

  predicate Blank(row: Option<Sanction>) {
    row.None? || (row.value.resolvedAt.Some? && row == Resolved(row, row.value.resolvedAt.value))
  }

  /** The life of a subscription seen from its row: visits, and payments that move the end. */
  datatype Event = Maintained(visit: Visit) | PaidUntil(end: Instant, at: Instant)

  datatype State = State(end: Instant, row: Option<Sanction>)

  function Next(state: State, event: Event): State {
    match event
    case Maintained(visit) => State(state.end, Visited(state.end, state.row, visit))
    case PaidUntil(end, at) => State(end, Resolved(state.row, at))
  }

  function Live(state: State, events: seq<Event>): State {
    if events == [] then state else Next(Live(state, events[..|events| - 1]), events[|events| - 1])
  }

  /** The action each event takes. */
  function ActionAt(state: State, event: Event): Action {
    if event.Maintained? then DueAction(state.end, state.row, event.visit.now) else NoAction
  }

  lemma AlikeActs(end: Instant, a: Option<Sanction>, b: Option<Sanction>, now: Instant)
    requires Alike(a, b)
    ensures DueAction(end, a, now) == DueAction(end, b, now)
    ensures View(end, a, now) == View(end, b, now)
  {
    hide WibDate;
  }

  /** An action writes the same row over both, whatever the merge finds. */
  lemma AlikeRecords(end: Instant, a: Option<Sanction>, b: Option<Sanction>, action: Action, now: Instant)
    requires Alike(a, b)
    ensures Alike(Recorded(end, a, action, now), Recorded(end, b, action, now))
    ensures !action.NoAction? ==> Recorded(end, a, action, now) == Recorded(end, b, action, now)
  {}

  lemma AlikeNext(end: Instant, a: Option<Sanction>, b: Option<Sanction>, event: Event)
    requires Alike(a, b)
    ensures ActionAt(State(end, a), event) == ActionAt(State(end, b), event)
    ensures Next(State(end, a), event).end == Next(State(end, b), event).end
    ensures Alike(Next(State(end, a), event).row, Next(State(end, b), event).row)
  {
    if event.Maintained? {
      hide Recorded, DueAction;
      AlikeActs(end, a, b, event.visit.now);
      AlikeRecords(end, a, b, DueAction(end, a, event.visit.now), event.visit.now);
    }
  }

  lemma {:induction false} AlikeForever(end: Instant, a: Option<Sanction>, b: Option<Sanction>, events: seq<Event>)
    requires Alike(a, b)
    ensures Live(State(end, a), events).end == Live(State(end, b), events).end
    ensures Alike(Live(State(end, a), events).row, Live(State(end, b), events).row)
    decreases |events|
  {
    hide Next, Alike;
    if events != [] {
      var init, last := events[..|events| - 1], events[|events| - 1];
      AlikeForever(end, a, b, init);
      AlikeNext(Live(State(end, a), init).end, Live(State(end, a), init).row, Live(State(end, b), init).row, last);
    }
  }

  /** A row reset by a payment behaves forever like no row at all: after any further visits
      and payments the next action is the same, the view is the same, and once any action has
      been recorded since, the rows are equal. */
  lemma ResetIsForgetting(end: Instant, row: Option<Sanction>, at: Instant, events: seq<Event>, event: Event)
    ensures var reset, none := Live(State(end, Resolved(row, at)), events), Live(State(end, None), events);
            && ActionAt(reset, event) == ActionAt(none, event)
            && (forall now :: View(reset.end, reset.row, now) == View(none.end, none.row, now))
            && Alike(reset.row, none.row)
            && (event.Maintained? && Next(reset, event).row != reset.row ==>
                  Next(reset, event).row == Next(none, event).row)
  {
    var reset, none := Live(State(end, Resolved(row, at)), events), Live(State(end, None), events);
    AlikeForever(end, Resolved(row, at), None, events);
    hide Live;
    AlikeNext(reset.end, reset.row, none.row, event);
    forall now ensures View(reset.end, reset.row, now) == View(none.end, none.row, now) {
      AlikeActs(reset.end, reset.row, none.row, now);
    }
    if event.Maintained? {
      hide DueAction, Recorded, Alike;
      AlikeActs(reset.end, reset.row, none.row, event.visit.now);
      AlikeRecords(reset.end, reset.row, none.row, DueAction(reset.end, reset.row, event.visit.now), event.visit.now);
      RecordedNothing(reset.end, reset.row, event.visit.now);
    }
  }

  lemma RecordedNothing(end: Instant, row: Option<Sanction>, now: Instant)
    ensures Recorded(end, row, NoAction, now) == row
  {}

  /** The row a payment leaves is fresh for any period, so the schedule starts over. */
  lemma PaymentStartsAfresh(end: Instant, row: Option<Sanction>, at: Instant)
    ensures Fresh(end, Resolved(row, at))
  {}
}
