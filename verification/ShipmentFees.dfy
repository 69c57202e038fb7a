/** The shipment fee: asked with every link made before the first payment, and how often it can
    be charged. */
module ShipmentFees {
  import opened Common
  import opened WibTime
  import opened Billing
  import opened BillingRuns

  /** The event makes a link for the device that asks the shipment fee. */
  predicate AsksFee(ledger: Ledger, event: BillingEvent, device: int) {
    && event.PaymentRequested? && event.device.id == device
    && var quote := QuoteFor(ledger, event.user, Some(event.device), event.priceIdr, event.now);
       quote.shipmentFeeIdr > 0
       && CreatePending(ledger, event.id, event.user, device, event.plan, quote.totalIdr).1
  }

  /** The orders of the device that include the fee. */
  function FeeIds(events: seq<BillingEvent>, device: int): set<string> {
    if events == [] then {}
    else
      var before, last := events[..|events| - 1], events[|events| - 1];
      FeeIds(before, device) + if AsksFee(Run(before), last, device) then {last.id} else {}
  }

  predicate Open(orders: map<string, Order>, id: string) {
    id in orders && (orders[id].status.Pending? || orders[id].status.Paid?)
  }

  /** Those that were paid or still can be. */
  function Payable(events: seq<BillingEvent>, device: int): set<string> {
    set id | id in FeeIds(events, device) && Open(Run(events).orders, id)
  }

  /** Those that were paid. */
  function Charged(events: seq<BillingEvent>, device: int): set<string> {
    set id | id in FeeIds(events, device) && id in Run(events).orders && Run(events).orders[id].status.Paid?
  }

  predicate AllNotified(events: seq<BillingEvent>) {
    forall i :: 0 <= i < |events| ==> events[i].Notified?
  }

  predicate AllAt(events: seq<BillingEvent>, at: Instant) {
    forall i :: 0 <= i < |events| ==> events[i].Time() == at
  }

  // ---- What a step does to an order ----

  /** An order keeps its amount, and once neither pending nor paid it never is again. */
  lemma StepOnOrder(ledger: Ledger, event: BillingEvent, id: string)
    requires id in ledger.orders
    ensures id in Step(ledger, event).orders
    ensures Open(Step(ledger, event).orders, id) ==> Open(ledger.orders, id)
  {
    match event
    case PaymentRequested(_, _, _, _, _, _) => hide QuoteFor;
    case Notified(_, _, _, _) => hide PaidPeriod, ResolveSanction;
    case MaintenanceRun(subscribers, startedAt) =>
      hide MaintainAll;
      MaintenanceKeepsPeriods(ledger, subscribers, startedAt);
  }

  lemma RunOneMore(events: seq<BillingEvent>, event: BillingEvent)
    ensures Run(events + [event]) == Step(Run(events), event)
  {
    assert (events + [event])[..|events|] == events;
  }

  lemma FeeIdsOneMore(events: seq<BillingEvent>, event: BillingEvent, device: int)
    ensures FeeIds(events + [event], device) ==
            FeeIds(events, device) + if AsksFee(Run(events), event, device) then {event.id} else {}
  {
    hide AsksFee, Run;
    assert (events + [event])[..|events|] == events;
  }

  lemma {:induction false} FeeIdsAreOrders(events: seq<BillingEvent>, device: int)
    ensures FeeIds(events, device) <= Run(events).orders.Keys
  {
    if events != [] {
      var n := |events| - 1;
      FeeIdsAreOrders(events[..n], device);
      AskedIsCreated(Run(events[..n]), events[n], device);
      hide AsksFee, Step;
      forall id | id in FeeIds(events[..n], device) ensures id in Run(events).orders {
        StepOnOrder(Run(events[..n]), events[n], id);
      }
    }
  }

  lemma AskedIsCreated(ledger: Ledger, event: BillingEvent, device: int)
    ensures AsksFee(ledger, event, device) ==> event.PaymentRequested? && event.id in Step(ledger, event).orders
  {
    hide QuoteFor;
  }

  /** One more event can only drop payable orders, or add the link it makes. */
  lemma PayableOneMore(events: seq<BillingEvent>, event: BillingEvent, device: int)
    ensures Payable(events + [event], device) <=
            Payable(events, device) + if AsksFee(Run(events), event, device) then {event.id} else {}
  {
    RunOneMore(events, event);
    FeeIdsOneMore(events, event, device);
    FeeIdsAreOrders(events, device);
    hide Run, FeeIds, AsksFee, Step, Open;
    forall id | id in Payable(events + [event], device) && id in FeeIds(events, device)
      ensures id in Payable(events, device) {
      StepOnOrder(Run(events), event, id);
    }
  }

  lemma {:induction false} NotificationsOnlyDrop(events: seq<BillingEvent>, more: seq<BillingEvent>, device: int)
    requires AllNotified(more)
    ensures Payable(events + more, device) <= Payable(events, device)
    ensures FeeIds(events + more, device) == FeeIds(events, device)
    decreases |more|
  {
    hide Run, FeeIds, Payable;
    if more == [] {
      assert events + more == events;
    } else {
      var n := |more| - 1;
      NotificationsOnlyDrop(events, more[..n], device);
      assert events + more == events + more[..n] + [more[n]];
      PayableOneMore(events + more[..n], more[n], device);
      FeeIdsOneMore(events + more[..n], more[n], device);
    }
  }

  /** Whatever notifications follow, only what is payable now can have been charged then. */
  lemma ChargedWithinPayable(events: seq<BillingEvent>, more: seq<BillingEvent>, device: int)
    requires AllNotified(more)
    ensures Charged(events + more, device) <= Payable(events, device)
  {
    hide Run, FeeIds;
    NotificationsOnlyDrop(events, more, device);
    assert Charged(events + more, device) <= Payable(events + more, device);
  }

  // ---- Counting ----

  lemma {:induction false} SubsetIsSmaller(a: set<string>, b: set<string>)
    requires a <= b
    ensures |a| <= |b|
  {
    if a != {} {
      var x :| x in a;
      SubsetIsSmaller(a - {x}, b - {x});
    }
  }

  lemma TwoOf(s: set<string>) returns (x: string, y: string)
    requires |s| >= 2
    ensures x in s && y in s && x != y
  {
    x :| x in s;
    assert |s - {x}| >= 1;
    y :| y in s - {x};
  }

  // ---- When the fee can be charged twice ----

  /** The notification that pays an order in full. */
  function Settlement(orders: map<string, Order>, id: string, at: Instant): BillingEvent
    requires id in orders
  {
    Notified(id, Paid, Some(orders[id].grossIdr), at)
  }

  lemma SettlementPays(ledger: Ledger, id: string, at: Instant)
    requires Open(ledger.orders, id)
    ensures var after := Step(ledger, Settlement(ledger.orders, id, at)).orders;
            && id in after && after[id].status.Paid?
            && (forall other :: other in ledger.orders && other != id ==>
                  other in after && after[other] == ledger.orders[other])
  {
    hide PaidPeriod, ResolveSanction;
  }

  lemma SettleTwo(events: seq<BillingEvent>, device: int, x: string, y: string, at: Instant)
    returns (more: seq<BillingEvent>)
    requires x in Payable(events, device) && y in Payable(events, device) && x != y
    ensures AllNotified(more) && AllAt(more, at)
    ensures x in Charged(events + more, device) && y in Charged(events + more, device)
  {
    hide Run, FeeIds, Step;
    var ledger := Run(events);
    var first := Settlement(ledger.orders, x, at);
    SettlementPays(ledger, x, at);
    RunOneMore(events, first);
    var later := Step(ledger, first);
    var second := Settlement(later.orders, y, at);
    SettlementPays(later, y, at);
    RunOneMore(events + [first], second);
    more := [first, second];
    assert events + more == events + [first] + [second];
    NotificationsOnlyDrop(events, more, device);
  }

  /** After any run, the notifications still to come can charge the fee of a device twice if and
      only if two links that ask it are paid or payable now; and then within any instant. */
  lemma ChargeableTwiceIffTwoPayable(events: seq<BillingEvent>, device: int, at: Instant)
    ensures (exists more :: AllNotified(more) && |Charged(events + more, device)| >= 2)
       <==> |Payable(events, device)| >= 2
    ensures |Payable(events, device)| >= 2 ==>
              exists more :: AllNotified(more) && AllAt(more, at) && |Charged(events + more, device)| >= 2
  {
    hide Payable, Charged, AllNotified, AllAt;
    if |Payable(events, device)| >= 2 {
      var x, y := TwoOf(Payable(events, device));
      var more := SettleTwo(events, device, x, y, at);
      SubsetIsSmaller({x, y}, Charged(events + more, device));
    }
    forall more | AllNotified(more) && |Charged(events + more, device)| >= 2 ensures |Payable(events, device)| >= 2 {
      ChargedWithinPayable(events, more, device);
      SubsetIsSmaller(Charged(events + more, device), Payable(events, device));
    }
  }

  /** The n-th event asks the fee only if nothing that asked it is open. */
  predicate LinkInTurn(events: seq<BillingEvent>, device: int, n: nat)
    requires n < |events|
  {
    AsksFee(Run(events[..n]), events[n], device) ==> Payable(events[..n], device) == {}
  }

  /** Every link that asks the fee was made while none that asked it could still be paid. */
  predicate OneLinkAtATime(events: seq<BillingEvent>, device: int) {
    forall n :: 0 <= n < |events| ==> LinkInTurn(events, device, n)
  }

  lemma OneLinkPrefix(events: seq<BillingEvent>, device: int)
    requires OneLinkAtATime(events, device) && events != []
    ensures var before, last := events[..|events| - 1], events[|events| - 1];
            && OneLinkAtATime(before, device)
            && (AsksFee(Run(before), last, device) ==> last.PaymentRequested? && Payable(before, device) == {})
  {
    var n := |events| - 1;
    AskedIsCreated(Run(events[..n]), events[n], device);
    assert LinkInTurn(events, device, n);
    hide Run, AsksFee, Payable;
    forall k | 0 <= k < n ensures LinkInTurn(events[..n], device, k) {
      assert LinkInTurn(events, device, k);
      assert events[..n][..k] == events[..k];
    }
  }

  lemma ChargedIsPayable(events: seq<BillingEvent>, device: int)
    ensures Charged(events, device) <= Payable(events, device)
  {}

  /** A caller who checks this before each link keeps the promise of one fee per device. */
  lemma {:induction false} OneLinkAtATimeChargesOnce(events: seq<BillingEvent>, device: int)
    requires OneLinkAtATime(events, device)
    ensures |Payable(events, device)| <= 1 && |Charged(events, device)| <= 1
  {
    hide Run, FeeIds, AsksFee, OneLinkAtATime, Charged, Payable;
    if events == [] {
      assert Payable(events, device) == {} by { NothingAsked(device); }
    } else {
      var before, last := events[..|events| - 1], events[|events| - 1];
      OneLinkPrefix(events, device);
      OneLinkAtATimeChargesOnce(before, device);
      PayableOneMore(before, last, device);
      assert before + [last] == events;
      if AsksFee(Run(before), last, device) {
        SubsetIsSmaller(Payable(events, device), {last.id});
      } else {
        SubsetIsSmaller(Payable(events, device), Payable(before, device));
      }
    }
    ChargedIsPayable(events, device);
    SubsetIsSmaller(Charged(events, device), Payable(events, device));
  }

  lemma NothingAsked(device: int)
    ensures Payable([], device) == {}
  {}

  // ---- A run that charges it twice ----

  function Link(id: string): BillingEvent {
    PaymentRequested(id, 7, BoundDevice(1, false, Some(15_000)), MonthlyBasic, 35_000, 0)
  }

  function Settled(id: string): BillingEvent {
    Notified(id, Paid, Some(50_000), 1)
  }

  /** Two links made before the first payment are both paid with the fee in them, although
      README.md:58 promises it once per device. */
  lemma ShipmentFeeCanBeChargedTwice()
    ensures var orders := Run([Link("a"), Link("b"), Settled("a"), Settled("b")]).orders;
            && "a" in orders && orders["a"].status.Paid? && orders["a"].grossIdr == 35_000 + 15_000
            && "b" in orders && orders["b"].status.Paid? && orders["b"].grossIdr == 35_000 + 15_000
            && orders["a"].device == orders["b"].device
  {
    var one, two, three := [Link("a")], [Link("a"), Link("b")], [Link("a"), Link("b"), Settled("a")];
    assert [] + [Link("a")] == one && one + [Link("b")] == two && two + [Settled("a")] == three;
    RunOneMore([], Link("a"));
    RunOneMore(one, Link("b"));
    RunOneMore(two, Settled("a"));
    RunOneMore(three, Settled("b"));
    hide Run, ResolveSanction, PaidPeriod;
    assert three + [Settled("b")] == [Link("a"), Link("b"), Settled("a"), Settled("b")];
    assert Run([]) == Ledger(map[], map[], map[]) by { RunNothing(); }
    assert |"a"| == 1 && "a"[0] != "b"[0];
  }

  lemma RunNothing()
    ensures Run([]) == Ledger(map[], map[], map[])
  {}
}
