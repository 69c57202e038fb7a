/** Amounts: what a link asks, what a payment must cover, and which notifications settle nothing. */
module Payments {
  import opened Common
  import opened WibTime
  import opened Subscriptions
  import opened Billing
  import opened BillingRuns

  // ---- One notification ----

  /** The provider's words for each outcome, and no others. */
  lemma StatusWords(word: string)
    ensures MapMidtransStatus(word) == Some(Paid) <==> word == "settlement" || word == "capture"
    ensures MapMidtransStatus(word) == Some(Pending) <==> word == "pending"
    ensures MapMidtransStatus(word) == Some(Expired) <==> word == "expire"
    ensures MapMidtransStatus(word) == Some(Failed) <==> word == "deny" || word == "cancel" || word == "failure"
    ensures MapMidtransStatus(word) == Some(Refunded) <==> word == "refund" || word == "partial_refund"
  {}

  /** A notification grants if and only if the order is pending, the payment is reported paid, and
      the amount is readable and covers the order. */
  lemma GrantsIffCovered(
      ledger: Ledger, id: string, status: PaymentStatus, notifiedIdr: Option<int>, receivedAt: Instant)
    ensures var outcome := ApplyWebhook(ledger, id, status, notifiedIdr, receivedAt).1;
            (exists user, end :: outcome == Ok(Granted(user, end))) <==>
            && id in ledger.orders && ledger.orders[id].status == Pending
            && status == Paid && notifiedIdr.Some? && ledger.orders[id].grossIdr <= notifiedIdr.value
  {
    hide PaidPeriod, ResolveSanction;
    var outcome := ApplyWebhook(ledger, id, status, notifiedIdr, receivedAt).1;
    if outcome.Ok? && outcome.value.Granted? {
      assert outcome == Ok(Granted(outcome.value.user, outcome.value.periodEnd));
    }
  }

  /** Whatever does not grant changes no subscription and no sanction; and it changes no order
      either, but for a pending one reported other than paid, which takes the reported status. */
  lemma WithoutGrantNothingChanges(
      ledger: Ledger, id: string, status: PaymentStatus, notifiedIdr: Option<int>, receivedAt: Instant)
    ensures var (after, outcome) := ApplyWebhook(ledger, id, status, notifiedIdr, receivedAt);
            !(outcome.Ok? && outcome.value.Granted?) ==>
              && after.subscriptions == ledger.subscriptions && after.sanctions == ledger.sanctions
              && after.orders ==
                 (if id in ledger.orders && ledger.orders[id].status == Pending && status != Paid
                  then ledger.orders[id := ledger.orders[id].(status := status)] else ledger.orders)
              && (outcome == Ok(UnknownOrder) <==> id !in ledger.orders)
              && (outcome == Err(InvalidAmount) <==>
                    id in ledger.orders && ledger.orders[id].status == Pending && status == Paid && notifiedIdr == None)
  {
    hide PaidPeriod, ResolveSanction;
  }

  /** What a grant gives its user, and nobody else: thirty days, in microseconds, from the end of
      a period still running or else from now, an active subscription to the plan of the order,
      and a sanction row, if there was one, that says nothing but when it was resolved. */
  lemma GrantGivesThirtyDays(ledger: Ledger, event: BillingEvent, user: int)
    requires IsGrant(ledger, event, user) && MonthlyOrders(ledger.orders)
    ensures var after := Step(ledger, event);
            var running := user in ledger.subscriptions && ledger.subscriptions[user].periodEnd > event.receivedAt;
            && after.orders == ledger.orders[event.id :=
                 ledger.orders[event.id].(status := Paid, paidAt := Some(event.receivedAt))]
            && after.subscriptions == ledger.subscriptions[user := Subscription(
                 ledger.orders[event.id].plan, Active,
                 if running then ledger.subscriptions[user].periodStart else event.receivedAt,
                 (if running then ledger.subscriptions[user].periodEnd else event.receivedAt) + 2_592_000_000_000)]
            && after.sanctions ==
               (if user in ledger.sanctions
                then ledger.sanctions[user := Sanction(None, None, None, 0, false, None, Some(event.receivedAt))]
                else ledger.sanctions)
  {}

  // ---- What a link asks ----

  /** The fine: 1 000 for each local midnight since the one that ended the expiry date, at most
      seven of them. */
  function Owed(end: Instant, now: Instant): int {
    var late := (LocalMidnight(now) - LocalMidnight(end)) / 86_400_000_000;
    if late <= 0 then 0 else if late >= 7 then 7_000 else 1_000 * late
  }

  /** The amount of a link: the price, 10 000 for a device referenced by a customer, the shipment
      unless an order of the device was paid, and what is owed. */
  function Asks(ledger: Ledger, event: BillingEvent): int
    requires event.PaymentRequested?
  {
    event.priceIdr
    + (if event.device.customerReferenced then 10_000 else 0)
    + (if exists id :: id in ledger.orders && ledger.orders[id].device == event.device.id
                    && ledger.orders[id].status == Paid
       then 0 else event.device.shipmentFeeIdr.UnwrapOr(0))
    + (if event.user in ledger.subscriptions then Owed(ledger.subscriptions[event.user].periodEnd, event.now) else 0)
  }

  lemma QuoteIsWhatTheLinkAsks(ledger: Ledger, event: BillingEvent)
    requires event.PaymentRequested?
    ensures QuoteFor(ledger, event.user, Some(event.device), event.priceIdr, event.now).totalIdr == Asks(ledger, event)
  {
    if event.user in ledger.subscriptions {
      FineIsOwed(ledger.subscriptions[event.user].periodEnd, event.now);
    }
    hide FineFor, OverdueDays, Owed;
    assert FineFor(0) == 0 by { NoFine(); }
  }

  /** The parts of a quote, with or without a device. */
  lemma QuoteParts(ledger: Ledger, user: int, device: Option<BoundDevice>, priceIdr: int, now: Instant)
    ensures var quote := QuoteFor(ledger, user, device, priceIdr, now);
            && quote.baseIdr == priceIdr
            && quote.customerReferenceFeeIdr == (if device.Some? && device.value.customerReferenced then 10_000 else 0)
            && quote.shipmentFeeIdr ==
               (if device.None? || device.value.shipmentFeeIdr.None?
                   || exists id :: id in ledger.orders && ledger.orders[id].device == device.value.id
                                && ledger.orders[id].status == Paid
                then 0 else device.value.shipmentFeeIdr.value)
            && quote.totalIdr == quote.baseIdr + quote.customerReferenceFeeIdr + quote.shipmentFeeIdr + quote.fineIdr
            && (user !in ledger.subscriptions ==>
                  quote.fineIdr == 0 && quote.overdueDays == 0 && !quote.withdrawalRequired)
            && (user in ledger.subscriptions ==>
                  var end := ledger.subscriptions[user].periodEnd;
                  && quote.fineIdr == Owed(end, now)
                  && (quote.overdueDays > 0 <==> LocalMidnight(end) < LocalMidnight(now))
                  && (quote.withdrawalRequired <==> LocalMidnight(end) + 8 * 86_400_000_000 <= LocalMidnight(now)))
  {
    if user in ledger.subscriptions {
      FineIsOwed(ledger.subscriptions[user].periodEnd, now);
      MidnightsApart(now, ledger.subscriptions[user].periodEnd);
    }
    hide FineFor, Owed, WibDate, LocalMidnight;
    assert FineFor(0) == 0 by { NoFine(); }
  }

  /** A link makes its order if and only if the id is free and the amount positive; it changes
      nothing else, and a taken id or a refused amount changes nothing. */
  lemma LinkMakesOrderIff(ledger: Ledger, event: BillingEvent)
    requires event.PaymentRequested?
    ensures var after := Step(ledger, event);
            && after.subscriptions == ledger.subscriptions && after.sanctions == ledger.sanctions
            && (if event.id in ledger.orders || Asks(ledger, event) <= 0 then after == ledger
                else
                  && after.orders.Keys == ledger.orders.Keys + {event.id}
                  && MadeBy(after.orders[event.id], ledger, event, event.id)
                  && after.orders[event.id].status == Pending && after.orders[event.id].paidAt == None
                  && forall id :: id in ledger.orders ==> after.orders[id] == ledger.orders[id])
  {
    QuoteIsWhatTheLinkAsks(ledger, event);
    hide QuoteFor, Asks;
  }

  lemma NoFine()
    ensures FineFor(0) == 0
  {}

  lemma FineIsOwed(end: Instant, now: Instant)
    ensures FineFor(OverdueDays(end, now)) == Owed(end, now)
  {
    MidnightsApart(now, end);
    hide WibDate, LocalMidnight;
  }

  // ---- Over runs ----

  /** The event made the order, as its link asked. */
  predicate MadeBy(order: Order, ledger: Ledger, event: BillingEvent, id: string) {
    && event.PaymentRequested? && event.id == id
    && order.user == event.user && order.device == event.device.id && order.plan == event.plan
    && order.grossIdr == Asks(ledger, event) && order.grossIdr > 0 && order.periodDays == 30
  }

  /** The event reported the order paid with an amount that covers it. */
  predicate PaidBy(order: Order, event: BillingEvent, id: string) {
    && event.Notified? && event.id == id && event.status == Paid
    && event.notifiedIdr.Some? && event.notifiedIdr.value >= order.grossIdr
    && order.paidAt == Some(event.receivedAt)
  }

  ghost predicate Accounted(events: seq<BillingEvent>, id: string) {
    id in Run(events).orders ==>
      var order := Run(events).orders[id];
      && (exists m :: 0 <= m < |events| && MadeBy(order, Run(events[..m]), events[m], id))
      && (order.status == Paid ==> exists n :: 0 <= n < |events| && PaidBy(order, events[n], id))
  }

  /** Terms of an order that no event changes. */
  predicate SameTerms(a: Order, b: Order) {
    a == b.(status := a.status, paidAt := a.paidAt)
  }

  /** One step seen from one order: it is made by its link, paid by a covering notification, or
      keeps its terms, and once not pending it stays as it is. */
  lemma StepOnOrder(ledger: Ledger, event: BillingEvent, id: string)
    requires id in Step(ledger, event).orders
    ensures var after := Step(ledger, event).orders[id];
            if id !in ledger.orders then MadeBy(after, ledger, event, id) && after.status == Pending
            else
              && SameTerms(after, ledger.orders[id])
              && (after.status == Paid && ledger.orders[id].status != Paid ==> PaidBy(after, event, id))
              && (ledger.orders[id].status != Pending ==> after == ledger.orders[id])
  {
    match event
    case PaymentRequested(_, _, _, _, _, _) =>
      QuoteIsWhatTheLinkAsks(ledger, event);
      hide QuoteFor, Asks;
    case Notified(_, _, _, _) =>
      hide PaidPeriod, ResolveSanction;
    case MaintenanceRun(subscribers, startedAt) =>
      hide MaintainAll;
      MaintenanceKeepsPeriods(ledger, subscribers, startedAt);
  }

  lemma {:induction false} EveryPaymentCovered(events: seq<BillingEvent>, id: string)
    ensures Accounted(events, id)
  {
    hide Step, MadeBy, PaidBy;
    if events != [] && id in Run(events).orders {
      var n := |events| - 1;
      var ledger := Run(events[..n]);
      EveryPaymentCovered(events[..n], id);
      StepOnOrder(ledger, events[n], id);
      var order := Run(events).orders[id];
      if id in ledger.orders {
        var m :| 0 <= m < n && MadeBy(ledger.orders[id], Run(events[..n][..m]), events[..n][m], id);
        assert events[..n][..m] == events[..m];
        SameTermsMade(ledger.orders[id], order, Run(events[..m]), events[m], id);
        assert MadeBy(order, Run(events[..m]), events[m], id);
        if order.status == Paid && ledger.orders[id].status == Paid {
          var k :| 0 <= k < n && PaidBy(ledger.orders[id], events[..n][k], id);
          assert PaidBy(order, events[k], id);
        }
      } else {
        assert MadeBy(order, Run(events[..n]), events[n], id);
      }
    }
  }

  lemma SameTermsMade(a: Order, b: Order, ledger: Ledger, event: BillingEvent, id: string)
    requires SameTerms(b, a) && MadeBy(a, ledger, event, id)
    ensures MadeBy(b, ledger, event, id)
  {
    hide Asks;
  }

  lemma StepKeepsOrders(ledger: Ledger, event: BillingEvent, id: string)
    requires id in ledger.orders
    ensures id in Step(ledger, event).orders
  {
    match event
    case PaymentRequested(_, _, _, _, _, _) => hide QuoteFor;
    case Notified(_, _, _, _) => hide PaidPeriod, ResolveSanction;
    case MaintenanceRun(subscribers, startedAt) =>
      hide MaintainAll;
      MaintenanceKeepsPeriods(ledger, subscribers, startedAt);
  }

  /** An order that is not pending any more is settled for good, however the run goes on. */
  lemma {:induction false} SettledForGood(events: seq<BillingEvent>, more: seq<BillingEvent>, id: string)
    requires id in Run(events).orders && Run(events).orders[id].status != Pending
    ensures id in Run(events + more).orders && Run(events + more).orders[id] == Run(events).orders[id]
    decreases |more|
  {
    hide Step, MadeBy, PaidBy;
    if more == [] {
      assert events + more == events;
    } else {
      var n := |more| - 1;
      assert (events + more)[..|events + more| - 1] == events + more[..n];
      SettledForGood(events, more[..n], id);
      StepKeepsOrders(Run(events + more[..n]), more[n], id);
      StepOnOrder(Run(events + more[..n]), more[n], id);
    }
  }

  /** An order reported expired, failed or refunded while pending never grants, whatever is
      reported of it later. */
  lemma ClosedNeverGrants(
      events: seq<BillingEvent>, id: string, status: PaymentStatus, notifiedIdr: Option<int>, receivedAt: Instant,
      more: seq<BillingEvent>, event: BillingEvent, user: int)
    requires id in Run(events).orders && Run(events).orders[id].status == Pending
    requires status in {Expired, Failed, Refunded}
    requires event.Notified? && event.id == id
    ensures var all := events + [Notified(id, status, notifiedIdr, receivedAt)] + more;
            && id in Run(all).orders && Run(all).orders[id].status == status
            && !IsGrant(Run(all), event, user)
            && Step(Run(all), event) == Run(all)
  {
    var closing := Notified(id, status, notifiedIdr, receivedAt);
    var closed := events + [closing];
    assert closed[..|events|] == events;
    WithoutGrantNothingChanges(Run(events), id, status, notifiedIdr, receivedAt);
    GrantsIffCovered(Run(events), id, status, notifiedIdr, receivedAt);
    assert Run(closed) == Step(Run(events), closing);
    SettledForGood(closed, more, id);
    hide Run;
    var ledger := Run(closed + more);
    GrantsIffCovered(ledger, id, event.status, event.notifiedIdr, event.receivedAt);
    WithoutGrantNothingChanges(ledger, id, event.status, event.notifiedIdr, event.receivedAt);
  }
}
