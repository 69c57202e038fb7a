/** What every run of payment requests, webhooks and maintenance keeps. */
module BillingRuns {
  import opened Common
  import opened WibTime
  import opened Subscriptions
  import opened Billing

  datatype BillingEvent =
    | PaymentRequested(id: string, user: int, device: BoundDevice, plan: Plan, priceIdr: int, now: Instant)
    | Notified(id: string, status: PaymentStatus, notifiedIdr: Option<int>, receivedAt: Instant)
    | MaintenanceRun(subscribers: seq<Subscriber>, startedAt: Instant)
  {
    function Time(): Instant {
      if PaymentRequested? then now else if Notified? then receivedAt else startedAt
    }
  }

  function Step(ledger: Ledger, event: BillingEvent): Ledger {
    match event
    case PaymentRequested(id, user, device, plan, priceIdr, now) =>
      CreatePending(ledger, id, user, device.id, plan, QuoteFor(ledger, user, Some(device), priceIdr, now).totalIdr).0
    case Notified(id, status, notifiedIdr, receivedAt) => ApplyWebhook(ledger, id, status, notifiedIdr, receivedAt).0
    case MaintenanceRun(subscribers, startedAt) => MaintainAll(ledger, subscribers, startedAt).0
  }

  function Run(events: seq<BillingEvent>): Ledger {
    if events == [] then Ledger(map[], map[], map[])
    else Step(Run(events[..|events| - 1]), events[|events| - 1])
  }

  // ---- Paid time ----

  /** Time an order bought: thirty days from its receipt or from the end of the time already
      bought, whichever is later. */
  datatype Grant = Grant(order: string, receivedAt: Instant, from: Instant, to: Instant)

  const GRANTED := PERIOD_DAYS * DAY

  predicate IsGrant(ledger: Ledger, event: BillingEvent, user: int) {
    && event.Notified?
    && var outcome := ApplyWebhook(ledger, event.id, event.status, event.notifiedIdr, event.receivedAt).1;
       outcome.Ok? && outcome.value.Granted? && outcome.value.user == user
  }

  function Later(a: Instant, b: Instant): Instant {
    if a > b then a else b
  }

  function NewGrant(grants: seq<Grant>, id: string, receivedAt: Instant): Grant {
    var from := if grants == [] then receivedAt else Later(grants[|grants| - 1].to, receivedAt);
    Grant(id, receivedAt, from, from + GRANTED)
  }

  /** The grants of a user, from the orders and the times of the notifications that paid them. */
  function Grants(events: seq<BillingEvent>, user: int): seq<Grant> {
    if events == [] then []
    else
      var before, last := Grants(events[..|events| - 1], user), events[|events| - 1];
      if IsGrant(Run(events[..|events| - 1]), last, user) then before + [NewGrant(before, last.id, last.receivedAt)]
      else before
  }

  function PaidOrders(orders: map<string, Order>, user: int): set<string> {
    set id | id in orders && orders[id].user == user && orders[id].status.Paid?
  }

  predicate Chained(grants: seq<Grant>) {
    forall i :: 0 <= i < |grants| ==> grants[i] == NewGrant(grants[..i], grants[i].order, grants[i].receivedAt)
  }

  /** The stored period starts with grant `m` and runs without a gap through the last one. */
  predicate StartsWith(subscription: Subscription, grants: seq<Grant>, m: int) {
    && 0 <= m < |grants|
    && subscription.periodStart == grants[m].from
    && subscription.periodEnd - subscription.periodStart == (|grants| - m) * GRANTED
  }

  ghost predicate PeriodMatches(ledger: Ledger, grants: seq<Grant>, user: int) {
    && (user in ledger.subscriptions <==> grants != [])
    && (user in ledger.subscriptions ==>
          && ledger.subscriptions[user].periodEnd == grants[|grants| - 1].to
          && exists m :: StartsWith(ledger.subscriptions[user], grants, m))
  }

  ghost predicate OrdersMatch(ledger: Ledger, grants: seq<Grant>, user: int) {
    && (forall id :: id in PaidOrders(ledger.orders, user) <==> exists i :: 0 <= i < |grants| && grants[i].order == id)
    && (forall i, j :: 0 <= i < j < |grants| ==> grants[i].order != grants[j].order)
    && |PaidOrders(ledger.orders, user)| == |grants|
  }

  predicate MonthlyOrders(orders: map<string, Order>) {
    forall id :: id in orders ==> orders[id].periodDays == PERIOD_DAYS
  }

  ghost predicate Balanced(ledger: Ledger, grants: seq<Grant>, user: int) {
    && MonthlyOrders(ledger.orders)
    && Chained(grants)
    && PeriodMatches(ledger, grants, user)
    && OrdersMatch(ledger, grants, user)
  }

  /** The periods of the subscriptions, without their status. */
  predicate SamePeriods(a: Ledger, b: Ledger) {
    && a.subscriptions.Keys == b.subscriptions.Keys
    && forall u :: u in a.subscriptions ==>
         && a.subscriptions[u].periodStart == b.subscriptions[u].periodStart
         && a.subscriptions[u].periodEnd == b.subscriptions[u].periodEnd
  }

  lemma {:induction false} MaintenanceKeepsPeriods(ledger: Ledger, subscribers: seq<Subscriber>, now: Instant)
    ensures MaintainAll(ledger, subscribers, now).0.orders == ledger.orders
    ensures SamePeriods(MaintainAll(ledger, subscribers, now).0, ledger)
    decreases |subscribers|
  {
    hide Maintain;
    if subscribers != [] {
      var n := |subscribers| - 1;
      MaintenanceKeepsPeriods(ledger, subscribers[..n], now);
      TurnTouchesOneUser(MaintainAll(ledger, subscribers[..n], now).0, subscribers[n], now);
    }
  }

  /** A notification that grants nothing leaves the periods and the paid orders alone. */
  lemma NoGrant(ledger: Ledger, event: BillingEvent, user: int)
    requires event.Notified? && !IsGrant(ledger, event, user) && MonthlyOrders(ledger.orders)
    ensures PaidOrders(Step(ledger, event).orders, user) == PaidOrders(ledger.orders, user)
    ensures MonthlyOrders(Step(ledger, event).orders)
    ensures Lookup(Step(ledger, event).subscriptions, user) == Lookup(ledger.subscriptions, user)
    ensures Lookup(Step(ledger, event).sanctions, user) == Lookup(ledger.sanctions, user)
  {}

  lemma RequestKeeps(ledger: Ledger, event: BillingEvent, user: int)
    requires event.PaymentRequested? && MonthlyOrders(ledger.orders)
    ensures PaidOrders(Step(ledger, event).orders, user) == PaidOrders(ledger.orders, user)
    ensures MonthlyOrders(Step(ledger, event).orders)
  {
    hide QuoteFor;
  }

  /** A grant pays one order that was pending, and sets the period accordingly. */
  lemma GrantPays(ledger: Ledger, event: BillingEvent, user: int)
    requires IsGrant(ledger, event, user) && MonthlyOrders(ledger.orders)
    ensures event.id in ledger.orders && ledger.orders[event.id].status.Pending? && ledger.orders[event.id].user == user
    ensures PaidOrders(Step(ledger, event).orders, user) == PaidOrders(ledger.orders, user) + {event.id}
    ensures event.id !in PaidOrders(ledger.orders, user)
    ensures MonthlyOrders(Step(ledger, event).orders)
    ensures var period := PaidPeriod(Lookup(ledger.subscriptions, user), PERIOD_DAYS, event.receivedAt);
            && Step(ledger, event).subscriptions ==
               ledger.subscriptions[user := Subscription(ledger.orders[event.id].plan, Active, period.0, period.1)]
            && Step(ledger, event).sanctions == ResolveSanction(ledger.sanctions, user, event.receivedAt)
  {}

  lemma GrantKeepsPeriod(ledger: Ledger, grants: seq<Grant>, event: BillingEvent, user: int)
    requires IsGrant(ledger, event, user) && MonthlyOrders(ledger.orders) && PeriodMatches(ledger, grants, user)
    ensures PeriodMatches(Step(ledger, event), grants + [NewGrant(grants, event.id, event.receivedAt)], user)
  {
    GrantPays(ledger, event, user);
    hide IsGrant, Step, PaidOrders, MonthlyOrders;
    var all := grants + [NewGrant(grants, event.id, event.receivedAt)];
    var after := Step(ledger, event).subscriptions[user];
    if user in ledger.subscriptions && ledger.subscriptions[user].periodEnd > event.receivedAt {
      var m :| StartsWith(ledger.subscriptions[user], grants, m);
      assert StartsWith(after, all, m);
    } else {
      assert StartsWith(after, all, |grants|);
    }
  }

  lemma GrantKeepsOrders(ledger: Ledger, grants: seq<Grant>, event: BillingEvent, user: int)
    requires IsGrant(ledger, event, user) && MonthlyOrders(ledger.orders) && OrdersMatch(ledger, grants, user)
    ensures OrdersMatch(Step(ledger, event), grants + [NewGrant(grants, event.id, event.receivedAt)], user)
  {
    GrantPays(ledger, event, user);
    hide IsGrant, Step, PaidOrders, MonthlyOrders;
    var all := grants + [NewGrant(grants, event.id, event.receivedAt)];
    var after := PaidOrders(Step(ledger, event).orders, user);
    forall id ensures id in after <==> exists i :: 0 <= i < |all| && all[i].order == id {
      if id == event.id {
        assert all[|grants|].order == id;
      } else if i :| 0 <= i < |grants| && grants[i].order == id {
        assert all[i].order == id;
      }
    }
    forall i | 0 <= i < |grants| ensures grants[i].order != event.id {
      assert grants[i].order in PaidOrders(ledger.orders, user);
    }
  }

  lemma ChainGrows(grants: seq<Grant>, id: string, receivedAt: Instant)
    requires Chained(grants)
    ensures Chained(grants + [NewGrant(grants, id, receivedAt)])
  {
    hide NewGrant;
    var grant := NewGrant(grants, id, receivedAt);
    var all := grants + [grant];
    assert grant.order == id && grant.receivedAt == receivedAt by { NewGrantNames(grants, id, receivedAt); }
    forall i | 0 <= i < |all| ensures all[i] == NewGrant(all[..i], all[i].order, all[i].receivedAt) {
      if i < |grants| {
        assert all[..i] == grants[..i];
      } else {
        assert all[..i] == grants;
      }
    }
  }

  lemma NewGrantNames(grants: seq<Grant>, id: string, receivedAt: Instant)
    ensures NewGrant(grants, id, receivedAt).order == id && NewGrant(grants, id, receivedAt).receivedAt == receivedAt
  {}

  lemma StepBalances(events: seq<BillingEvent>, event: BillingEvent, user: int)
    requires Balanced(Run(events), Grants(events, user), user)
    ensures Balanced(Run(events + [event]), Grants(events + [event], user), user)
  {
    hide IsGrant, Chained, StartsWith, OrdersMatch, MonthlyOrders;
    var ledger, grants := Run(events), Grants(events, user);
    assert (events + [event])[..|events|] == events;
    if IsGrant(ledger, event, user) {
      hide Step, PeriodMatches;
      assert event.Notified? by { GrantIsNotified(ledger, event, user); }
      GrantPays(ledger, event, user);
      GrantKeepsPeriod(ledger, grants, event, user);
      GrantKeepsOrders(ledger, grants, event, user);
      ChainGrows(grants, event.id, event.receivedAt);
    } else {
      QuietStep(ledger, event, user);
      SameBooks(ledger, Step(ledger, event), grants, user);
    }
  }

  lemma GrantIsNotified(ledger: Ledger, event: BillingEvent, user: int)
    requires IsGrant(ledger, event, user)
    ensures event.Notified?
  {}

  /** A step that is no grant to a user leaves that user's paid orders and period alone. */
  lemma QuietStep(ledger: Ledger, event: BillingEvent, user: int)
    requires !IsGrant(ledger, event, user) && MonthlyOrders(ledger.orders)
    ensures PaidOrders(Step(ledger, event).orders, user) == PaidOrders(ledger.orders, user)
    ensures MonthlyOrders(Step(ledger, event).orders)
    ensures user in Step(ledger, event).subscriptions <==> user in ledger.subscriptions
    ensures user in ledger.subscriptions ==>
              && Step(ledger, event).subscriptions[user].periodStart == ledger.subscriptions[user].periodStart
              && Step(ledger, event).subscriptions[user].periodEnd == ledger.subscriptions[user].periodEnd
  {
    hide IsGrant, MonthlyOrders, PaidOrders;
    match event
    case PaymentRequested(_, _, _, _, _, _) =>
      hide QuoteFor;
      RequestKeeps(ledger, event, user);
    case Notified(_, _, _, _) =>
      hide Step;
      NoGrant(ledger, event, user);
      assert Lookup(Step(ledger, event).subscriptions, user) == Lookup(ledger.subscriptions, user);
    case MaintenanceRun(subscribers, startedAt) =>
      hide MaintainAll;
      MaintenanceKeepsPeriods(ledger, subscribers, startedAt);
  }

  lemma SameBooks(a: Ledger, b: Ledger, grants: seq<Grant>, user: int)
    requires Balanced(a, grants, user) && MonthlyOrders(b.orders)
    requires PaidOrders(b.orders, user) == PaidOrders(a.orders, user)
    requires user in b.subscriptions <==> user in a.subscriptions
    requires user in a.subscriptions ==>
               && b.subscriptions[user].periodStart == a.subscriptions[user].periodStart
               && b.subscriptions[user].periodEnd == a.subscriptions[user].periodEnd
    ensures Balanced(b, grants, user)
  {
    hide PaidOrders, MonthlyOrders, Chained;
    if user in a.subscriptions {
      var m :| StartsWith(a.subscriptions[user], grants, m);
      assert StartsWith(b.subscriptions[user], grants, m);
    }
  }

  lemma NothingBalances(user: int)
    ensures Balanced(Run([]), Grants([], user), user)
  {
    assert PaidOrders(Run([]).orders, user) == {};
  }

  lemma {:induction false} RunBalances(events: seq<BillingEvent>, user: int)
    ensures Balanced(Run(events), Grants(events, user), user)
  {
    hide Balanced, Run, Grants;
    if events == [] {
      NothingBalances(user);
    } else {
      var n := |events| - 1;
      RunBalances(events[..n], user);
      StepBalances(events[..n], events[n], user);
      assert events[..n] + [events[n]] == events;
    }
  }

  lemma {:induction false} GrantsAreDisjoint(grants: seq<Grant>, i: nat, j: nat)
    requires Chained(grants) && i < j < |grants|
    ensures grants[i].to <= grants[j].from
    decreases j
  {
    assert grants[j] == NewGrant(grants[..j], grants[j].order, grants[j].receivedAt);
    assert grants[..j][|grants[..j]| - 1] == grants[j - 1];
    if i < j - 1 {
      GrantsAreDisjoint(grants, i, j - 1);
      assert grants[j - 1] == NewGrant(grants[..j - 1], grants[j - 1].order, grants[j - 1].receivedAt);
    }
  }

  function TotalTime(grants: seq<Grant>): int {
    if grants == [] then 0 else TotalTime(grants[..|grants| - 1]) + grants[|grants| - 1].to - grants[|grants| - 1].from
  }

  lemma {:induction false} TotalOfEqual(grants: seq<Grant>)
    requires forall i :: 0 <= i < |grants| ==> grants[i].to - grants[i].from == GRANTED
    ensures TotalTime(grants) == |grants| * GRANTED
  {
    if grants != [] {
      TotalOfEqual(grants[..|grants| - 1]);
    }
  }

  /** Thirty days each, none overlapping an earlier one. */
  lemma GrantsAreIntervals(grants: seq<Grant>)
    requires Chained(grants)
    ensures forall i, j :: 0 <= i < j < |grants| ==> grants[i].to <= grants[j].from
    ensures TotalTime(grants) == |grants| * GRANTED
  {
    forall i, j | 0 <= i < j < |grants| ensures grants[i].to <= grants[j].from {
      GrantsAreDisjoint(grants, i, j);
    }
    GrantsAreWhole(grants);
    hide Chained, NewGrant;
    TotalOfEqual(grants);
  }

  lemma OrdersMatchEmpty(ledger: Ledger, grants: seq<Grant>, user: int)
    requires OrdersMatch(ledger, grants, user)
    ensures PaidOrders(ledger.orders, user) == {} <==> grants == []
  {
    hide PaidOrders;
    if grants != [] {
      assert grants[0].order in PaidOrders(ledger.orders, user);
    }
  }

  /** Paid time is conserved, over every run with notifications in any order, repeated,
      underpaid or unpaid: each order grants at most once, and exactly the paid ones do; the
      granted intervals are thirty days, in microseconds, each and disjoint; the stored period ends with the
      last of them and covers the gapless tail of them, a positive multiple of thirty days. */
  lemma PaidTimeIsConserved(events: seq<BillingEvent>, user: int)
    ensures var ledger, grants := Run(events), Grants(events, user);
            && OrdersMatch(ledger, grants, user)
            && (forall i :: 0 <= i < |grants| ==>
                  grants[i].receivedAt <= grants[i].from && grants[i].to == grants[i].from + 2_592_000_000_000)
            && (forall i, j :: 0 <= i < j < |grants| ==> grants[i].to <= grants[j].from)
            && TotalTime(grants) == |PaidOrders(ledger.orders, user)| * 2_592_000_000_000
            && (user in ledger.subscriptions <==> PaidOrders(ledger.orders, user) != {})
            && (user in ledger.subscriptions ==>
                  && grants != []
                  && ledger.subscriptions[user].periodEnd == grants[|grants| - 1].to
                  && exists m :: StartsWith(ledger.subscriptions[user], grants, m))
  {
    hide Run, Grants, PaidOrders, StartsWith, Chained, OrdersMatch, MonthlyOrders;
    var ledger, grants := Run(events), Grants(events, user);
    RunBalances(events, user);
    GrantsAreIntervals(grants);
    GrantsAreWhole(grants);
    OrdersMatchEmpty(ledger, grants, user);
    assert |PaidOrders(ledger.orders, user)| == |grants| by { AsManyOrders(ledger, grants, user); }
  }

  lemma AsManyOrders(ledger: Ledger, grants: seq<Grant>, user: int)
    requires OrdersMatch(ledger, grants, user)
    ensures |PaidOrders(ledger.orders, user)| == |grants|
  {}

  lemma GrantsAreWhole(grants: seq<Grant>)
    requires Chained(grants)
    ensures forall i :: 0 <= i < |grants| ==>
              grants[i].receivedAt <= grants[i].from && grants[i].to == grants[i].from + GRANTED
  {}

  // ---- Access ----

  predicate InTime(events: seq<BillingEvent>) {
    forall i, j :: 0 <= i < j < |events| ==> events[i].Time() <= events[j].Time()
  }

  /** Past due only once the period is over. */
  predicate Lapsed(subscriptions: map<int, Subscription>, now: Instant) {
    forall u :: u in subscriptions && subscriptions[u].status.PastDue? ==> subscriptions[u].periodEnd < now
  }

  lemma TurnLapses(ledger: Ledger, subscriber: Subscriber, now: Instant)
    requires Lapsed(ledger.subscriptions, now)
    ensures Lapsed(Maintain(ledger, subscriber, now).0.subscriptions, now)
  {
    if subscriber.user in ledger.subscriptions {
      OverdueIsPast(ledger.subscriptions[subscriber.user].periodEnd, Lookup(ledger.sanctions, subscriber.user), now);
      hide DueAction, Recorded;
    }
  }

  lemma OverdueIsPast(end: Instant, row: Option<Sanction>, now: Instant)
    ensures var action := DueAction(end, row, now);
            action.OverdueReminder? || action.MarkWithdrawalRequired? ==> end < now
  {
    if now <= end {
      WibDateMonotone(now, end);
    }
    hide WibDate;
  }

  lemma {:induction false} MaintenanceLapses(ledger: Ledger, subscribers: seq<Subscriber>, now: Instant)
    requires Lapsed(ledger.subscriptions, now)
    ensures Lapsed(MaintainAll(ledger, subscribers, now).0.subscriptions, now)
    decreases |subscribers|
  {
    hide Lapsed, Maintain;
    if subscribers != [] {
      var n := |subscribers| - 1;
      MaintenanceLapses(ledger, subscribers[..n], now);
      TurnLapses(MaintainAll(ledger, subscribers[..n], now).0, subscribers[n], now);
    }
  }

  lemma StepLapses(ledger: Ledger, event: BillingEvent)
    requires Lapsed(ledger.subscriptions, event.Time())
    ensures Lapsed(Step(ledger, event).subscriptions, event.Time())
  {
    match event
    case PaymentRequested(_, _, _, _, _, _) => hide QuoteFor;
    case Notified(_, _, _, _) =>
    case MaintenanceRun(subscribers, startedAt) =>
      hide Lapsed, MaintainAll;
      MaintenanceLapses(ledger, subscribers, startedAt);
  }

  lemma {:induction false} PastDueIsOver(events: seq<BillingEvent>, now: Instant)
    requires InTime(events) && (events != [] ==> events[|events| - 1].Time() <= now)
    ensures Lapsed(Run(events).subscriptions, now)
  {
    if events != [] {
      hide Step;
      var n := |events| - 1;
      PastDueIsOver(events[..n], events[n].Time());
      StepLapses(Run(events[..n]), events[n]);
    }
  }

  predicate Covers(grant: Grant, at: Instant) {
    grant.from <= at < grant.to
  }

  lemma {:induction false} SomeGrantCovers(grants: seq<Grant>, at: Instant)
    requires Chained(grants) && grants != [] && grants[|grants| - 1].to > at
    requires forall i :: 0 <= i < |grants| ==> grants[i].receivedAt <= at
    ensures exists i :: 0 <= i < |grants| && Covers(grants[i], at)
  {
    var n := |grants| - 1;
    assert grants[n] == NewGrant(grants[..n], grants[n].order, grants[n].receivedAt);
    if Covers(grants[n], at) {
    } else {
      assert forall i :: 0 <= i < n ==> grants[..n][..i] == grants[..i];
      SomeGrantCovers(grants[..n], at);
      var i :| 0 <= i < n && Covers(grants[..n][i], at);
      assert Covers(grants[i], at);
    }
  }

  lemma {:induction false} GrantsAreReceived(events: seq<BillingEvent>, user: int, now: Instant)
    requires InTime(events) && (events != [] ==> events[|events| - 1].Time() <= now)
    ensures forall i :: 0 <= i < |Grants(events, user)| ==> Grants(events, user)[i].receivedAt <= now
  {
    if events != [] {
      hide Run;
      var n := |events| - 1;
      GrantsAreReceived(events[..n], user, events[n].Time());
      if IsGrant(Run(events[..n]), events[n], user) {
        GrantIsNotified(Run(events[..n]), events[n], user);
      }
    }
  }

  /** Access equals paid time: while the clock does not run backwards, the gate is open at a
      time, after any run of webhooks and maintenance, exactly when the stored period ends
      later, and exactly when some granted interval contains the time. */
  lemma AccessEqualsPaidTime(events: seq<BillingEvent>, user: int, at: Instant)
    requires InTime(events) && (events != [] ==> events[|events| - 1].Time() <= at)
    ensures var subscriptions := Run(events).subscriptions;
            && (HasActive(subscriptions, user, at) <==> user in subscriptions && subscriptions[user].periodEnd > at)
            && (HasActive(subscriptions, user, at) <==>
                  exists i :: 0 <= i < |Grants(events, user)| && Covers(Grants(events, user)[i], at))
  {
    hide Run, Grants, StartsWith, OrdersMatch, MonthlyOrders, Chained, Covers, InTime;
    var subscriptions, grants := Run(events).subscriptions, Grants(events, user);
    PastDueIsOver(events, at);
    RunBalances(events, user);
    GrantsAreReceived(events, user, at);
    if grants != [] {
      EndsLaterIffCovered(grants, at);
    }
  }

  /** Once all grants were received, the last ends later exactly when some grant covers the time. */
  lemma EndsLaterIffCovered(grants: seq<Grant>, at: Instant)
    requires Chained(grants) && grants != []
    requires forall i :: 0 <= i < |grants| ==> grants[i].receivedAt <= at
    ensures grants[|grants| - 1].to > at <==> exists i :: 0 <= i < |grants| && Covers(grants[i], at)
  {
    if grants[|grants| - 1].to > at {
      SomeGrantCovers(grants, at);
    }
    GrantsAreWhole(grants);
    if i :| 0 <= i < |grants| && Covers(grants[i], at) {
      if i < |grants| - 1 {
        GrantsAreDisjoint(grants, i, |grants| - 1);
      }
    }
  }

  // ---- Quotes ----

  /** A paid order stays paid. */
  lemma StaysPaid(ledger: Ledger, event: BillingEvent, device: int)
    requires PaidBefore(ledger.orders, device)
    ensures PaidBefore(Step(ledger, event).orders, device)
  {
    var id :| id in ledger.orders && ledger.orders[id].device == device && ledger.orders[id].status.Paid?;
    hide QuoteFor;
    match event
    case PaymentRequested(_, _, _, _, _, _) =>
      assert Step(ledger, event).orders[id] == ledger.orders[id];
    case Notified(_, _, _, _) =>
      assert Step(ledger, event).orders[id] == ledger.orders[id];
    case MaintenanceRun(subscribers, startedAt) =>
      hide MaintainAll;
      MaintenanceKeepsPeriods(ledger, subscribers, startedAt);
  }

  /** Every quote after a paid order of the device charges no shipment, however the run goes on. */
  lemma {:induction false} NoShipmentFeeAfterPayment(
      events: seq<BillingEvent>, more: seq<BillingEvent>, user: int, device: BoundDevice, priceIdr: int, now: Instant)
    requires PaidBefore(Run(events).orders, device.id)
    ensures PaidBefore(Run(events + more).orders, device.id)
    ensures var quote := QuoteFor(Run(events + more), user, Some(device), priceIdr, now);
            && quote.shipmentFeeIdr == 0
            && quote.totalIdr == priceIdr + quote.customerReferenceFeeIdr + quote.fineIdr
    decreases |more|
  {
    hide FineFor, Step;
    if more == [] {
      assert events + more == events;
    } else {
      var n := |more| - 1;
      NoShipmentFeeAfterPayment(events, more[..n], user, device, priceIdr, now);
      assert (events + more)[..|events + more| - 1] == events + more[..n];
      hide PaidBefore;
      StaysPaid(Run(events + more[..n]), more[n], device.id);
    }
  }

  /** Whatever is stored, the fine of a quote is the one the operators' view shows, and a quote
      that requires withdrawal is one of a subscription shown as such. */
  lemma QuoteAgreesWithView(ledger: Ledger, user: int, device: Option<BoundDevice>, priceIdr: int, now: Instant)
    requires user in ledger.subscriptions
    ensures var quote := QuoteFor(ledger, user, device, priceIdr, now);
            var view := Subscriptions.View(ledger.subscriptions[user].periodEnd, Lookup(ledger.sanctions, user), now);
            && quote.fineIdr == view.fineIdr
            && (quote.withdrawalRequired <==> view.stage == Withdrawal)
  {
    hide PaidBefore, FineFor, WibDate;
    ViewAndJobAgree(ledger.subscriptions[user].periodEnd, Lookup(ledger.sanctions, user), now);
  }

  // ---- One subscription's share of a run ----

  /** The visits a maintenance run paid to a user before it ended. */
  function VisitsOf(ledger: Ledger, subscribers: seq<Subscriber>, now: Instant, user: int): seq<Event> {
    if subscribers == [] then []
    else
      var n := |subscribers| - 1;
      VisitsOf(ledger, subscribers[..n], now, user)
      + if MaintainAll(ledger, subscribers[..n], now).1 && subscribers[n].user == user && user in ledger.subscriptions
        then [Maintained(Visit(now, subscribers[n].reachable))] else []
  }

  function Share(ledger: Ledger, event: BillingEvent, user: int): seq<Event> {
    if event.MaintenanceRun? then VisitsOf(ledger, event.subscribers, event.startedAt, user)
    else if IsGrant(ledger, event, user) then
      [PaidUntil(Step(ledger, event).subscriptions[user].periodEnd, event.receivedAt)]
    else []
  }

  /** The visits and payments of a user, in the order of the run. */
  function History(events: seq<BillingEvent>, user: int): seq<Event> {
    if events == [] then []
    else
      var before := events[..|events| - 1];
      History(before, user) + Share(Run(before), events[|events| - 1], user)
  }

  /** The user's rows hold a state of the subscription's own life. */
  predicate Holds(ledger: Ledger, user: int, state: State) {
    && Lookup(ledger.sanctions, user) == state.row
    && (if user in ledger.subscriptions then ledger.subscriptions[user].periodEnd == state.end else state.row.None?)
  }

  lemma {:induction false} LiveAppend(state: State, a: seq<Event>, b: seq<Event>)
    ensures Live(state, a + b) == Live(Live(state, a), b)
    decreases |b|
  {
    hide Next;
    if b == [] {
      assert a + b == a;
    } else {
      var n := |b| - 1;
      assert (a + b)[..|a + b| - 1] == a + b[..n];
      LiveAppend(state, a, b[..n]);
    }
  }

  lemma TurnProjects(ledger: Ledger, subscriber: Subscriber, now: Instant, state: State)
    requires subscriber.user in ledger.subscriptions && Holds(ledger, subscriber.user, state)
    ensures Holds(Maintain(ledger, subscriber, now).0, subscriber.user,
                  Next(state, Maintained(Visit(now, subscriber.reachable))))
  {
    hide DueAction;
    RecordedNothing(state.end, state.row, now);
  }

  lemma LiveOne(state: State, event: Event)
    ensures Live(state, [event]) == Next(state, event)
  {
    assert Live(state, []) == state;
    assert [event][..0] == [];
  }

  lemma {:induction false} MaintenanceProjects(
      ledger: Ledger, subscribers: seq<Subscriber>, now: Instant, user: int, state: State)
    requires Holds(ledger, user, state)
    ensures Holds(MaintainAll(ledger, subscribers, now).0, user, Live(state, VisitsOf(ledger, subscribers, now, user)))
    decreases |subscribers|
  {
    if subscribers != [] {
      var n := |subscribers| - 1;
      var visits := VisitsOf(ledger, subscribers[..n], now, user);
      var before := MaintainAll(ledger, subscribers[..n], now);
      MaintenanceProjects(ledger, subscribers[..n], now, user, state);
      MaintenanceKeepsPeriods(ledger, subscribers[..n], now);
      hide Maintain, Live, Next;
      if before.1 {
        TurnTouchesOneUser(before.0, subscribers[n], now);
        if subscribers[n].user == user && user in ledger.subscriptions {
          var visit := Maintained(Visit(now, subscribers[n].reachable));
          TurnProjects(before.0, subscribers[n], now, Live(state, visits));
          LiveAppend(state, visits, [visit]);
          LiveOne(Live(state, visits), visit);
        } else {
          assert visits + [] == visits;
          if subscribers[n].user == user {
            NoRecordNoTurn(before.0, subscribers[n], now);
          }
        }
      } else {
        assert visits + [] == visits;
      }
    }
  }

  lemma StepProjects(ledger: Ledger, event: BillingEvent, user: int, state: State)
    requires Holds(ledger, user, state) && MonthlyOrders(ledger.orders)
    ensures Holds(Step(ledger, event), user, Live(state, Share(ledger, event, user)))
  {
    hide IsGrant, MonthlyOrders, VisitsOf;
    assert Live(state, []) == state;
    match event
    case PaymentRequested(_, _, _, _, _, _) =>
      hide QuoteFor;
      if IsGrant(ledger, event, user) {
        GrantIsNotified(ledger, event, user);
        assert false;
      }
    case Notified(_, _, _, _) =>
      hide Step, Live;
      if IsGrant(ledger, event, user) {
        GrantPays(ledger, event, user);
        LiveOne(state, Share(ledger, event, user)[0]);
      } else {
        NoGrant(ledger, event, user);
        assert Lookup(Step(ledger, event).subscriptions, user) == Lookup(ledger.subscriptions, user);
      }
    case MaintenanceRun(subscribers, startedAt) =>
      hide MaintainAll, Live;
      MaintenanceProjects(ledger, subscribers, startedAt, user, state);
  }

  const UNBORN := State(0, None)

  /** Every run of the whole system is, for each user, a life of that user's subscription. */
  lemma {:induction false} RunProjects(events: seq<BillingEvent>, user: int)
    ensures Holds(Run(events), user, Live(UNBORN, History(events, user)))
  {
    if events != [] {
      hide Holds, Step, Live, Share, PeriodMatches, OrdersMatch, Chained;
      var n := |events| - 1;
      RunProjects(events[..n], user);
      RunBalances(events[..n], user);
      StepProjects(Run(events[..n]), events[n], user, Live(UNBORN, History(events[..n], user)));
      LiveAppend(UNBORN, History(events[..n], user), Share(Run(events[..n]), events[n], user));
    }
  }
}
