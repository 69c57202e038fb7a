/** The reminder schedule and the past due status in every run of the whole system. */
module BillingSchedule {
  import opened Common
  import opened WibTime
  import opened Subscriptions
  import opened Billing
  import opened BillingRuns

  function AsEvents(visits: seq<Visit>): (events: seq<Event>)
    ensures |events| == |visits|
  {
    seq(|visits|, i requires 0 <= i < |visits| => Maintained(visits[i]))
  }

  lemma {:induction false} LiveVisits(state: State, visits: seq<Visit>)
    ensures Live(state, AsEvents(visits)) == State(state.end, AfterVisits(state.end, state.row, visits))
    decreases |visits|
  {
    hide Visited;
    if visits != [] {
      var n := |visits| - 1;
      LiveVisits(state, visits[..n]);
      assert AsEvents(visits)[..n] == AsEvents(visits[..n]);
    }
  }

  predicate OverdueRecorded(row: Option<Sanction>) {
    row.Some? && row.value.overdueDay.Some?
  }

  /** The row since the last payment: what the visits made of one that knows nothing. */
  lemma RowAfterPayment(
      events: seq<BillingEvent>, user: int, earlier: seq<Event>, end: Instant, at: Instant, visits: seq<Visit>)
    returns (row: Option<Sanction>)
    requires History(events, user) == earlier + [PaidUntil(end, at)] + AsEvents(visits)
    requires user in Run(events).subscriptions
    ensures Run(events).subscriptions[user].periodEnd == end
    ensures Blank(row) && Fresh(end, row) && !OverdueRecorded(row)
    ensures Lookup(Run(events).sanctions, user) == AfterVisits(end, row, visits)
  {
    hide Run, History;
    RunProjects(events, user);
    var before := Live(UNBORN, earlier);
    row := Next(before, PaidUntil(end, at)).row;
    assert earlier + [PaidUntil(end, at)] + AsEvents(visits) == earlier + ([PaidUntil(end, at)] + AsEvents(visits));
    LiveAppend(UNBORN, earlier, [PaidUntil(end, at)] + AsEvents(visits));
    LiveAppend(before, [PaidUntil(end, at)], AsEvents(visits));
    LiveOne(before, PaidUntil(end, at));
    LiveVisits(State(end, row), visits);
    PaymentStartsAfresh(end, before.row, at);
  }

  // ---- The visits since the last payment ----

  function VisitsSince(history: seq<Event>): seq<Visit> {
    if history == [] || history[|history| - 1].PaidUntil? then []
    else VisitsSince(history[..|history| - 1]) + [history[|history| - 1].visit]
  }

  predicate HasPayment(history: seq<Event>) {
    exists i :: 0 <= i < |history| && history[i].PaidUntil?
  }

  lemma {:induction false} SplitAtPayment(history: seq<Event>) returns (earlier: seq<Event>, end: Instant, at: Instant)
    requires HasPayment(history)
    ensures history == earlier + [PaidUntil(end, at)] + AsEvents(VisitsSince(history))
  {
    var n := |history| - 1;
    var last := history[n];
    if last.PaidUntil? {
      earlier, end, at := history[..n], last.end, last.at;
    } else {
      assert HasPayment(history[..n]) by {
        var i :| 0 <= i < |history| && history[i].PaidUntil?;
        assert history[..n][i].PaidUntil?;
      }
      earlier, end, at := SplitAtPayment(history[..n]);
      var before := VisitsSince(history[..n]);
      assert AsEvents(before + [last.visit]) == AsEvents(before) + [last];
    }
  }

  /** Whoever has a subscription has paid for it. */
  lemma {:induction false} SubscribersHavePaid(events: seq<BillingEvent>, user: int)
    requires user in Run(events).subscriptions
    ensures HasPayment(History(events, user))
  {
    hide Step, IsGrant, VisitsOf, PeriodMatches, OrdersMatch, Chained;
    var n := |events| - 1;
    var ledger, history := Run(events[..n]), History(events[..n], user);
    RunBalances(events[..n], user);
    if IsGrant(ledger, events[n], user) {
      GrantIsNotified(ledger, events[n], user);
      assert History(events, user)[|history|].PaidUntil?;
    } else {
      QuietStep(ledger, events[n], user);
      SubscribersHavePaid(events[..n], user);
      var i :| 0 <= i < |history| && history[i].PaidUntil?;
      assert History(events, user)[i].PaidUntil?;
    }
  }

  /** Visits in order of time, none after an instant. */
  predicate InOrderBy(visits: seq<Visit>, now: Instant) {
    InOrder(visits) && forall i :: 0 <= i < |visits| ==> visits[i].now <= now
  }

  predicate AllVisitsAt(events: seq<Event>, now: Instant) {
    forall i :: 0 <= i < |events| ==> events[i].Maintained? && events[i].visit.now == now
  }

  lemma {:induction false} VisitsOfAreAt(ledger: Ledger, subscribers: seq<Subscriber>, now: Instant, user: int)
    ensures AllVisitsAt(VisitsOf(ledger, subscribers, now, user), now)
    decreases |subscribers|
  {
    hide MaintainAll;
    if subscribers != [] {
      VisitsOfAreAt(ledger, subscribers[..|subscribers| - 1], now, user);
    }
  }

  lemma {:induction false} LaterVisits(history: seq<Event>, more: seq<Event>, now: Instant)
    requires InOrderBy(VisitsSince(history), now) && AllVisitsAt(more, now)
    ensures InOrderBy(VisitsSince(history + more), now)
    decreases |more|
  {
    if more == [] {
      assert history + more == history;
    } else {
      var n := |more| - 1;
      LaterVisits(history, more[..n], now);
      assert (history + more)[..|history + more| - 1] == history + more[..n];
    }
  }

  lemma {:induction false} HistoryInOrder(events: seq<BillingEvent>, user: int, now: Instant)
    requires InTime(events) && (events != [] ==> events[|events| - 1].Time() <= now)
    ensures InOrderBy(VisitsSince(History(events, user)), now)
  {
    hide Run, Step, IsGrant, VisitsOf;
    if events != [] {
      var n := |events| - 1;
      var last, ledger, history := events[n], Run(events[..n]), History(events[..n], user);
      HistoryInOrder(events[..n], user, last.Time());
      if last.MaintenanceRun? {
        VisitsOfAreAt(ledger, last.subscribers, last.startedAt, user);
        LaterVisits(history, VisitsOf(ledger, last.subscribers, last.startedAt, user), last.startedAt);
      } else if !IsGrant(ledger, last, user) {
        assert history + [] == history;
      }
    }
  }

  lemma ThenInOrder(visits: seq<Visit>, now: Instant)
    requires InOrderBy(visits, now)
    ensures InOrder(visits + [Visit(now, true)])
  {}

  /** The schedule holds in every run of the whole system, in order of time: the action due to a
      subscriber now is the one the slot is for, unless a visit since the subscriber's last
      payment served the slot. */
  lemma ScheduleHoldsInRuns(events: seq<BillingEvent>, user: int, now: Instant)
    requires InTime(events) && (events != [] ==> events[|events| - 1].Time() <= now)
    requires user in Run(events).subscriptions
    ensures var end := Run(events).subscriptions[user].periodEnd;
            var action := DueAction(end, Lookup(Run(events).sanctions, user), now);
            var visits := VisitsSince(History(events, user));
            if exists i :: 0 <= i < |visits| && Serves(end, visits[i], Slot(end, now))
            then action.NoAction?
            else action == Scheduled(end, now)
  {
    hide Run, History, DueAction, Slot, Serves, VisitsSince, InTime, InOrderBy, InOrder, Blank, OverdueRecorded, Fresh;
    hide Scheduled, HasPayment, AfterVisits, AsEvents;
    SubscribersHavePaid(events, user);
    HistoryInOrder(events, user, now);
    var visits := VisitsSince(History(events, user));
    var earlier, end, at := SplitAtPayment(History(events, user));
    var row := RowAfterPayment(events, user, earlier, end, at, visits);
    ThenInOrder(visits, now);
    ReminderSchedule(end, row, visits, now);
  }

  /** In every run in order of time, a subscriber's row says exactly when the subscriber was last
      reminded since the last payment, what is owed, and since when withdrawal is due. */
  lemma RowTellsInRuns(events: seq<BillingEvent>, user: int)
    requires InTime(events) && user in Run(events).subscriptions
    ensures Tells(Run(events).subscriptions[user].periodEnd, Lookup(Run(events).sanctions, user),
                  VisitsSince(History(events, user)))
  {
    hide Run, History, Tells;
    SubscribersHavePaid(events, user);
    HistoryInOrder(events, user, if events == [] then 0 else events[|events| - 1].Time());
    var visits := VisitsSince(History(events, user));
    var earlier, end, at := SplitAtPayment(History(events, user));
    var row := RowAfterPayment(events, user, earlier, end, at, visits);
    RowTellsTheVisits(end, row, visits);
  }

  // ---- Past due ----

  /** The status and the sanction row say the same, and of the present period. */
  predicate StatusMatches(ledger: Ledger, user: int) {
    user in ledger.subscriptions ==>
      var subscription, row := ledger.subscriptions[user], Lookup(ledger.sanctions, user);
      && (subscription.status.PastDue? <==> OverdueRecorded(row))
      && (OverdueRecorded(row) ==> row.value.remindedFor == Some(subscription.periodEnd))
  }

  lemma TurnKeepsStatus(ledger: Ledger, subscriber: Subscriber, now: Instant, user: int)
    requires StatusMatches(ledger, user)
    ensures StatusMatches(Maintain(ledger, subscriber, now).0, user)
  {
    hide DueAction;
    if subscriber.user != user {
      TurnTouchesOneUser(ledger, subscriber, now);
      hide Maintain;
      assert Lookup(Maintain(ledger, subscriber, now).0.subscriptions, user) == Lookup(ledger.subscriptions, user);
    }
  }

  lemma {:induction false} MaintenanceKeepsStatus(ledger: Ledger, subscribers: seq<Subscriber>, now: Instant, user: int)
    requires StatusMatches(ledger, user)
    ensures StatusMatches(MaintainAll(ledger, subscribers, now).0, user)
    decreases |subscribers|
  {
    hide Maintain, StatusMatches;
    if subscribers != [] {
      var n := |subscribers| - 1;
      MaintenanceKeepsStatus(ledger, subscribers[..n], now, user);
      TurnKeepsStatus(MaintainAll(ledger, subscribers[..n], now).0, subscribers[n], now, user);
    }
  }

  lemma StepKeepsStatus(ledger: Ledger, event: BillingEvent, user: int)
    requires StatusMatches(ledger, user)
    ensures StatusMatches(Step(ledger, event), user)
  {
    match event
    case PaymentRequested(_, _, _, _, _, _) => hide QuoteFor;
    case Notified(_, _, _, _) => hide PaidPeriod;
    case MaintenanceRun(subscribers, startedAt) =>
      hide StatusMatches, MaintainAll;
      MaintenanceKeepsStatus(ledger, subscribers, startedAt, user);
  }

  /** In every run, in whatever order of time: a subscription is past due if and only if its
      sanction row records an overdue day, and that day is one of the present period. */
  lemma {:induction false} PastDueIffOverdueRecorded(events: seq<BillingEvent>, user: int)
    ensures StatusMatches(Run(events), user)
  {
    if events != [] {
      hide StatusMatches, Step;
      PastDueIffOverdueRecorded(events[..|events| - 1], user);
      StepKeepsStatus(Run(events[..|events| - 1]), events[|events| - 1], user);
    }
  }

  const FIRST_OVERDUE_SLOT := PRE_EXPIRY_REMINDER_DAYS + 2

  /** The visit came after the expiry day and was not left to a message that failed. */
  predicate ServesOverdue(end: Instant, visit: Visit) {
    Serves(end, visit, Slot(end, visit.now)) && Slot(end, visit.now) >= FIRST_OVERDUE_SLOT
  }

  lemma VisitRecordsOverdue(end: Instant, row: Option<Sanction>, slot: nat, visit: Visit)
    requires Remembers(end, row, slot) && slot <= Slot(end, visit.now)
    requires OverdueRecorded(row) <==> slot >= FIRST_OVERDUE_SLOT
    ensures var now := Slot(end, visit.now);
            OverdueRecorded(Visited(end, row, visit)) <==>
            (if Serves(end, visit, now) then now else slot) >= FIRST_OVERDUE_SLOT
  {
    hide WibDate, DueAction;
    DueAfter(end, row, slot, visit.now);
  }

  lemma {:induction false} VisitsRecordOverdue(end: Instant, row: Option<Sanction>, visits: seq<Visit>)
    requires Fresh(end, row) && !OverdueRecorded(row) && InOrder(visits)
    ensures OverdueRecorded(AfterVisits(end, row, visits)) <==> LastServed(end, visits) >= FIRST_OVERDUE_SLOT
  {
    hide Slot, Serves, Visited, Remembers, OverdueRecorded;
    if visits != [] {
      var n := |visits| - 1;
      VisitsRecordOverdue(end, row, visits[..n]);
      VisitsRemember(end, row, visits[..n]);
      LastServedBound(end, visits[..n], visits[n].now);
      VisitRecordsOverdue(end, AfterVisits(end, row, visits[..n]), LastServed(end, visits[..n]), visits[n]);
    }
  }

  lemma OverdueServedIff(end: Instant, visits: seq<Visit>, now: Instant)
    requires InOrderBy(visits, now)
    ensures LastServed(end, visits) >= FIRST_OVERDUE_SLOT <==>
            exists i :: 0 <= i < |visits| && ServesOverdue(end, visits[i])
  {
    LastServedBound(end, visits, now);
    hide LastServed;
    var last := LastServed(end, visits);
    if last >= FIRST_OVERDUE_SLOT {
      var i :| 0 <= i < |visits| && Serves(end, visits[i], last);
      assert ServesOverdue(end, visits[i]);
    }
  }

  /** In every run in order of time, a subscription is past due exactly when the job, since the
      last payment, visited it after the expiry day and its message went out or none was needed.
      The end of the period alone does not make it so. */
  lemma PastDueIffVisitedOverdue(events: seq<BillingEvent>, user: int)
    requires InTime(events) && user in Run(events).subscriptions
    ensures var subscription, visits := Run(events).subscriptions[user], VisitsSince(History(events, user));
            subscription.status.PastDue? <==>
            exists i :: 0 <= i < |visits| && ServesOverdue(subscription.periodEnd, visits[i])
  {
    hide Run, History, ServesOverdue;
    var now := if events == [] then 0 else events[|events| - 1].Time();
    SubscribersHavePaid(events, user);
    HistoryInOrder(events, user, now);
    PastDueIffOverdueRecorded(events, user);
    var earlier, end, at := SplitAtPayment(History(events, user));
    var visits := VisitsSince(History(events, user));
    var row := RowAfterPayment(events, user, earlier, end, at, visits);
    VisitsRecordOverdue(end, row, visits);
    OverdueServedIff(end, visits, now);
  }

  function Sample(): seq<BillingEvent> {
    [PaymentRequested("a", 7, BoundDevice(1, false, None), MonthlyBasic, 35_000, 0),
     Notified("a", Paid, Some(35_000), 0),
     MaintenanceRun([Subscriber(7, false)], 31 * DAY)]
  }

  /** A period that is over leaves the status active while the reminder has not gone out,
      although README.md:67 says it moves. */
  lemma OverButStillActive()
    ensures InTime(Sample())
    ensures var ledger := Run(Sample());
            && 7 in ledger.subscriptions
            && ledger.subscriptions[7].status == Active
            && ledger.subscriptions[7].periodEnd < Sample()[2].Time()
  {
    var events := Sample();
    assert events[..2][..1] == events[..1] && events[..1][..0] == [];
    assert events[..3] == events;
    var ledger := Run(events[..2]);
    assert Run(events[..1]) == Step(Run([]), events[0]);
    assert ledger == Step(Run(events[..1]), events[1]);
    assert ledger.subscriptions == map[7 := Subscription(MonthlyBasic, Active, 0, 30 * DAY)];
    MaintenanceKeepsPeriods(ledger, events[2].subscribers, 31 * DAY);
  }
}
