/** Payment orders, subscriptions and sanctions: quotes, pending orders, provider webhooks,
    the maintenance job and the access gate. */
module Billing {
  import opened Common
  import opened WibTime
  import opened Subscriptions

  const PERIOD_DAYS := 30
  const CUSTOMER_REFERENCE_FEE_IDR := 10_000

  datatype Plan = MonthlyBasic | MonthlyOjol

  datatype PaymentStatus = Pending | Paid | Expired | Failed | Refunded

  datatype Order = Order(
    user: int, device: int, plan: Plan, grossIdr: int, periodDays: int, status: PaymentStatus, paidAt: Option<Instant>)

  datatype SubscriptionStatus = Active | PastDue

  datatype Subscription = Subscription(plan: Plan, status: SubscriptionStatus, periodStart: Instant, periodEnd: Instant)

  /** The three tables: orders by provider order id, one subscription and at most one sanction
      row per user. */
  datatype Ledger = Ledger(
    orders: map<string, Order>, subscriptions: map<int, Subscription>, sanctions: map<int, Sanction>)

  datatype BoundDevice = BoundDevice(id: int, customerReferenced: bool, shipmentFeeIdr: Option<int>)

  datatype Quote = Quote(
    baseIdr: int, customerReferenceFeeIdr: int, shipmentFeeIdr: int, fineIdr: int, totalIdr: int,
    overdueDays: int, withdrawalRequired: bool)

  datatype WebhookOutcome = UnknownOrder | Ignored | Granted(user: int, periodEnd: Instant)

  datatype WebhookError = InvalidAmount | UnsupportedStatus

  /** A subscriber the job visits, and whether a message to them would go out. */
  datatype Subscriber = Subscriber(user: int, reachable: bool)

  function MapMidtransStatus(status: string): Option<PaymentStatus> {
    if status in ["settlement", "capture"] then Some(Paid)
    else if status == "pending" then Some(Pending)
    else if status == "expire" then Some(Expired)
    else if status in ["deny", "cancel", "failure"] then Some(Failed)
    else if status in ["refund", "partial_refund"] then Some(Refunded)
    else None
  }

  function Lookup<K, V>(table: map<K, V>, key: K): Option<V> {
    if key in table then Some(table[key]) else None
  }

  // ---- The operations on the ledger ----

  predicate PaidBefore(orders: map<string, Order>, device: int) {
    exists id :: id in orders && orders[id].device == device && orders[id].status.Paid?
  }

  function QuoteFor(ledger: Ledger, user: int, device: Option<BoundDevice>, priceIdr: int, now: Instant): Quote {
    var reference := if device.Some? && device.value.customerReferenced then CUSTOMER_REFERENCE_FEE_IDR else 0;
    var shipment :=
      if device.None? || PaidBefore(ledger.orders, device.value.id) then 0 else device.value.shipmentFeeIdr.UnwrapOr(0);
    var overdue := if user in ledger.subscriptions then OverdueDays(ledger.subscriptions[user].periodEnd, now) else 0;
    Quote(priceIdr, reference, shipment, FineFor(overdue), priceIdr + reference + shipment + FineFor(overdue),
          overdue, overdue > MAX_FINE_DAYS)
  }

  /** A pending order; refused by the table when the id is taken or the amount not positive. */
  function CreatePending(ledger: Ledger, id: string, user: int, device: int, plan: Plan, grossIdr: int)
      : (Ledger, bool)
  {
    if id in ledger.orders || grossIdr <= 0 then (ledger, false)
    else
      (ledger.(orders := ledger.orders[id := Order(user, device, plan, grossIdr, PERIOD_DAYS, Pending, None)]), true)
  }

  /** The period after payment: a running period is extended, otherwise a new one starts. */
  function PaidPeriod(current: Option<Subscription>, periodDays: int, receivedAt: Instant): (Instant, Instant) {
    if current.Some? && current.value.periodEnd > receivedAt then
      (current.value.periodStart, current.value.periodEnd + periodDays * DAY)
    else (receivedAt, receivedAt + periodDays * DAY)
  }

  function ResolveSanction(sanctions: map<int, Sanction>, user: int, at: Instant): map<int, Sanction> {
    if user in sanctions then sanctions[user := Resolved(Some(sanctions[user]), at).value] else sanctions
  }

  function ApplyWebhook(
      ledger: Ledger, id: string, status: PaymentStatus, notifiedIdr: Option<int>, receivedAt: Instant)
      : (Ledger, Result<WebhookOutcome, WebhookError>)
  {
    if id !in ledger.orders then (ledger, Ok(UnknownOrder))
    else
      var order := ledger.orders[id];
      if !order.status.Pending? then (ledger, Ok(Ignored))
      else if !status.Paid? then (ledger.(orders := ledger.orders[id := order.(status := status)]), Ok(Ignored))
      else if notifiedIdr.None? then (ledger, Err(InvalidAmount))
      else if notifiedIdr.value < order.grossIdr then (ledger, Ok(Ignored))
      else
        var period := PaidPeriod(Lookup(ledger.subscriptions, order.user), order.periodDays, receivedAt);
        (Ledger(ledger.orders[id := order.(status := Paid, paidAt := Some(receivedAt))],
                ledger.subscriptions[order.user := Subscription(order.plan, Active, period.0, period.1)],
                ResolveSanction(ledger.sanctions, order.user, receivedAt)),
         Ok(Granted(order.user, period.1)))
  }

  /** One subscriber's turn; false when a message failed, which ends the run. */
  function Maintain(ledger: Ledger, subscriber: Subscriber, now: Instant): (Ledger, bool) {
    var user := subscriber.user;
    if user !in ledger.subscriptions then (ledger, true)
    else
      var subscription, row := ledger.subscriptions[user], Lookup(ledger.sanctions, user);
      var action := DueAction(subscription.periodEnd, row, now);
      if action.NoAction? then (ledger, true)
      else if action.SendsMessage() && !subscriber.reachable then (ledger, false)
      else
        (ledger.(
           subscriptions :=
             if action.OverdueReminder? || action.MarkWithdrawalRequired? then
               ledger.subscriptions[user := subscription.(status := PastDue)]
             else ledger.subscriptions,
           sanctions := ledger.sanctions[user := Recorded(subscription.periodEnd, row, action, now).value]), true)
  }

  function MaintainAll(ledger: Ledger, subscribers: seq<Subscriber>, now: Instant): (Ledger, bool) {
    if subscribers == [] then (ledger, true)
    else
      var before := MaintainAll(ledger, subscribers[..|subscribers| - 1], now);
      if before.1 then Maintain(before.0, subscribers[|subscribers| - 1], now) else before
  }

  /** The access gate. */
  predicate HasActive(subscriptions: map<int, Subscription>, user: int, at: Instant) {
    user in subscriptions && subscriptions[user].status.Active? && subscriptions[user].periodEnd > at
  }

  // ---- The tables and their operations ----

  datatype Record = Record(user: int, reachable: bool, periodEnd: Instant, row: Option<Sanction>)

  class BillingStore {
    var orders: map<string, Order>
    var subscriptions: map<int, Subscription>
    var sanctions: map<int, Sanction>

    constructor ()
      ensures View() == Ledger(map[], map[], map[])
    {
      orders, subscriptions, sanctions := map[], map[], map[];
    }

    function View(): Ledger
      reads this
    {
      Ledger(orders, subscriptions, sanctions)
    }

    method BuildSubscriptionPaymentQuote(user: int, device: Option<BoundDevice>, priceIdr: int, now: Instant)
      returns (quote: Quote)
      ensures quote == QuoteFor(View(), user, device, priceIdr, now)
    {
      var referenceFee, shipmentFee, overdueDays := 0, 0, 0;
      if device.Some? {
        if device.value.customerReferenced {
          referenceFee := CUSTOMER_REFERENCE_FEE_IDR;
        }
        if !PaidBefore(orders, device.value.id) {
          shipmentFee := device.value.shipmentFeeIdr.UnwrapOr(0);
        }
      }
      if user in subscriptions {
        overdueDays := OverdueDays(subscriptions[user].periodEnd, now);
      }
      var fine := FineFor(overdueDays);
      quote := Quote(priceIdr, referenceFee, shipmentFee, fine, priceIdr + referenceFee + shipmentFee + fine,
                     overdueDays, overdueDays > MAX_FINE_DAYS);
    }

    method CreatePendingMidtransPayment(id: string, user: int, device: int, plan: Plan, grossIdr: int)
      returns (created: bool)
      modifies this`orders
      ensures (View(), created) == CreatePending(old(View()), id, user, device, plan, grossIdr)
    {
      if id in orders || grossIdr <= 0 {
        return false;
      }
      orders := orders[id := Order(user, device, plan, grossIdr, PERIOD_DAYS, Pending, None)];
      created := true;
    }

    /** The provider's request, its signature already verified. */
    method PostMidtransWebhook(id: string, transactionStatus: string, notifiedIdr: Option<int>, receivedAt: Instant)
      returns (outcome: Result<WebhookOutcome, WebhookError>)
      modifies this
      ensures var status := MapMidtransStatus(transactionStatus);
              (View(), outcome) ==
              if status.None? then (old(View()), Err(UnsupportedStatus))
              else ApplyWebhook(old(View()), id, status.value, notifiedIdr, receivedAt)
      ensures subscriptions != old(subscriptions) ==> transactionStatus in ["settlement", "capture"]
    {
      var status := MapMidtransStatus(transactionStatus);
      if status.None? {
        return Err(UnsupportedStatus);
      }
      outcome := ApplyMidtransWebhook(id, status.value, notifiedIdr, receivedAt);
    }

    method ApplyMidtransWebhook(id: string, status: PaymentStatus, notifiedIdr: Option<int>, receivedAt: Instant)
      returns (outcome: Result<WebhookOutcome, WebhookError>)
      modifies this
      ensures (View(), outcome) == ApplyWebhook(old(View()), id, status, notifiedIdr, receivedAt)
    {
      if id !in orders {
        return Ok(UnknownOrder);
      }
      var order := orders[id];
      if order.status.Paid? {
        return Ok(Ignored);
      }
      if !order.status.Pending? {
        return Ok(Ignored);
      }
      if !status.Paid? {
        orders := orders[id := order.(status := status)];
        return Ok(Ignored);
      }
      if notifiedIdr.None? {
        return Err(InvalidAmount);
      }
      if notifiedIdr.value < order.grossIdr {
        return Ok(Ignored);
      }
      var (start, end) := PaidPeriod(Lookup(subscriptions, order.user), order.periodDays, receivedAt);
      subscriptions := subscriptions[order.user := Subscription(order.plan, Active, start, end)];
      orders := orders[id := order.(status := Paid, paidAt := Some(receivedAt))];
      ResolveSubscriptionSanction(order.user, receivedAt);
      outcome := Ok(Granted(order.user, end));
    }

    method ResolveSubscriptionSanction(user: int, at: Instant)
      modifies this`sanctions
      ensures sanctions == ResolveSanction(old(sanctions), user, at)
    {
      if user in sanctions {
        sanctions := sanctions[user := Sanction(None, None, None, 0, false, None, Some(at))];
      }
    }

    method SetSubscriptionStatus(user: int, status: SubscriptionStatus)
      modifies this`subscriptions
      ensures user in old(subscriptions) ==>
                subscriptions == old(subscriptions)[user := old(subscriptions)[user].(status := status)]
      ensures user !in old(subscriptions) ==> subscriptions == old(subscriptions)
    {
      if user in subscriptions {
        subscriptions := subscriptions[user := subscriptions[user].(status := status)];
      }
    }

    method UpsertSanctionState(
        user: int, remindedFor: Option<Instant>, preExpiryDay: Option<int>, overdueDay: Option<int>,
        fineIdr: int, withdrawalRequired: bool, withdrawalRequiredAt: Option<Instant>)
      modifies this`sanctions
      ensures sanctions == old(sanctions)[user :=
                Upsert(Lookup(old(sanctions), user), remindedFor, preExpiryDay, overdueDay, fineIdr,
                       withdrawalRequired, withdrawalRequiredAt)]
    {
      if user !in sanctions {
        sanctions := sanctions[user :=
          Sanction(remindedFor, preExpiryDay, overdueDay, fineIdr, withdrawalRequired, withdrawalRequiredAt, None)];
      } else {
        var row := sanctions[user];
        var merged := row.(fineIdr := fineIdr, withdrawalRequired := withdrawalRequired, resolvedAt := None);
        if remindedFor != row.remindedFor {
          merged := merged.(preExpiryDay := preExpiryDay, overdueDay := overdueDay);
        } else {
          if preExpiryDay.Some? {
            merged := merged.(preExpiryDay := preExpiryDay);
          }
          if overdueDay.Some? {
            merged := merged.(overdueDay := overdueDay);
          }
        }
        if remindedFor.Some? {
          merged := merged.(remindedFor := remindedFor);
        }
        if withdrawalRequiredAt.Some? {
          merged := merged.(withdrawalRequiredAt := withdrawalRequiredAt);
        }
        sanctions := sanctions[user := merged];
      }
    }

    /** The records of the run: every listed subscriber with a subscription. */
    method FetchRecords(subscribers: seq<Subscriber>) returns (records: seq<Option<Record>>)
      ensures |records| == |subscribers|
      ensures forall i :: 0 <= i < |records| ==> records[i] == RecordOf(View(), subscribers[i])
    {
      records := [];
      for i := 0 to |subscribers|
        invariant |records| == i
        invariant forall j :: 0 <= j < i ==> records[j] == RecordOf(View(), subscribers[j])
      {
        records := records + [RecordOf(View(), subscribers[i])];
      }
    }

    method RunSubscriptionMaintenance(subscribers: seq<Subscriber>, now: Instant) returns (completed: bool)
      requires OnePerUser(subscribers)
      modifies this
      ensures (View(), completed) == MaintainAll(old(View()), subscribers, now)
    {
      hide Maintain, DueAction, Recorded;
      var records := FetchRecords(subscribers);
      assert subscribers[..0] == [];
      for i := 0 to |records|
        invariant (View(), true) == MaintainAll(old(View()), subscribers[..i], now)
        invariant forall j :: i <= j < |records| ==> records[j] == RecordOf(View(), subscribers[j])
      {
        ghost var before := View();
        assert subscribers[..i + 1][..i] == subscribers[..i];
        TurnTouchesOneUser(before, subscribers[i], now);
        StoppedStaysStopped(old(View()), subscribers, i + 1, now);
        if records[i].Some? {
          var ok := MaintainRecord(records[i].value, now);
          FailedTurnChangesNothing(before, subscribers[i], now);
          if !ok {
            return false;
          }
        } else {
          NoRecordNoTurn(before, subscribers[i], now);
        }
        forall j | i + 1 <= j < |records| ensures records[j] == RecordOf(View(), subscribers[j]) {
          assert subscribers[j].user != subscribers[i].user;
          assert RecordOf(View(), subscribers[j]) == RecordOf(before, subscribers[j]);
        }
      }
      assert subscribers[..|subscribers|] == subscribers;
      completed := true;
    }

    method MaintainRecord(record: Record, now: Instant) returns (ok: bool)
      requires record.user in subscriptions
      requires Some(record) == RecordOf(View(), Subscriber(record.user, record.reachable))
      modifies this
      ensures (View(), ok) == Maintain(old(View()), Subscriber(record.user, record.reachable), now)
    {
      hide DueAction;
      var end, row := record.periodEnd, record.row;
      var action := DueAction(end, row, now);
      ok := true;
      match action
      case NoAction =>
      case PreExpiryReminder(days) =>
        if !record.reachable {
          return false;
        }
        UpsertSanctionState(record.user, Some(end), Some(days), None, 0, false, None);
      case ExpiryDayReminder =>
        if !record.reachable {
          return false;
        }
        UpsertSanctionState(record.user, Some(end), Some(0), None, 0, false, None);
      case OverdueReminder(days, fine) =>
        if !record.reachable {
          return false;
        }
        SetSubscriptionStatus(record.user, PastDue);
        UpsertSanctionState(record.user, Some(end), CarriedDay(end, row), Some(days), fine, false, None);
      case MarkWithdrawalRequired(days, fine) =>
        SetSubscriptionStatus(record.user, PastDue);
        UpsertSanctionState(record.user, Some(end), CarriedDay(end, row), Some(days), fine, true, Some(now));
    }

    method HasActiveSubscription(user: int, at: Instant) returns (active: bool)
      ensures active <==> HasActive(subscriptions, user, at)
    {
      active := user in subscriptions && subscriptions[user].status.Active? && at < subscriptions[user].periodEnd;
    }
  }

  predicate OnePerUser(subscribers: seq<Subscriber>) {
    forall i, j :: 0 <= i < j < |subscribers| ==> subscribers[i].user != subscribers[j].user
  }

  function RecordOf(ledger: Ledger, subscriber: Subscriber): Option<Record> {
    var user := subscriber.user;
    if user !in ledger.subscriptions then None
    else Some(Record(user, subscriber.reachable, ledger.subscriptions[user].periodEnd, Lookup(ledger.sanctions, user)))
  }

  /** A turn changes no other user's rows, no order, and no period. */
  lemma TurnTouchesOneUser(ledger: Ledger, subscriber: Subscriber, now: Instant)
    ensures var after := Maintain(ledger, subscriber, now).0;
            && after.orders == ledger.orders
            && after.subscriptions.Keys == ledger.subscriptions.Keys
            && (forall u :: u in ledger.subscriptions ==>
                  after.subscriptions[u] == ledger.subscriptions[u].(status := after.subscriptions[u].status))
            && (forall u :: u != subscriber.user ==>
                  && Lookup(after.subscriptions, u) == Lookup(ledger.subscriptions, u)
                  && Lookup(after.sanctions, u) == Lookup(ledger.sanctions, u))
  {
    hide DueAction, Recorded;
  }

  /** A turn that ends the run has changed nothing. */
  lemma FailedTurnChangesNothing(ledger: Ledger, subscriber: Subscriber, now: Instant)
    ensures Maintain(ledger, subscriber, now).1 || Maintain(ledger, subscriber, now).0 == ledger
  {
    hide DueAction, Recorded;
  }

  lemma NoRecordNoTurn(ledger: Ledger, subscriber: Subscriber, now: Instant)
    requires subscriber.user !in ledger.subscriptions
    ensures Maintain(ledger, subscriber, now) == (ledger, true)
  {}

  /** A run that stopped early returns what it had reached. */
  lemma {:induction false} StoppedStaysStopped(ledger: Ledger, subscribers: seq<Subscriber>, k: nat, now: Instant)
    requires k <= |subscribers|
    ensures !MaintainAll(ledger, subscribers[..k], now).1 ==>
              MaintainAll(ledger, subscribers, now) == MaintainAll(ledger, subscribers[..k], now)
    decreases |subscribers|
  {
    hide Maintain;
    var n := |subscribers|;
    if k == n {
      assert subscribers[..k] == subscribers;
    } else {
      StoppedStaysStopped(ledger, subscribers[..n - 1], k, now);
      assert subscribers[..n - 1][..k] == subscribers[..k];
    }
  }

  // ---- Who is visited ----

  /** A message is due to the subscriber and would fail. */
  predicate Blocks(ledger: Ledger, subscriber: Subscriber, now: Instant) {
    var user := subscriber.user;
    && user in ledger.subscriptions && !subscriber.reachable
    && DueAction(ledger.subscriptions[user].periodEnd, Lookup(ledger.sanctions, user), now).SendsMessage()
  }

  lemma TurnEndsIffBlocked(ledger: Ledger, subscriber: Subscriber, now: Instant)
    ensures Maintain(ledger, subscriber, now).1 <==> !Blocks(ledger, subscriber, now)
  {
    hide DueAction, Recorded;
  }

  lemma {:induction false} OthersUntouched(ledger: Ledger, subscribers: seq<Subscriber>, user: int, now: Instant)
    requires forall i :: 0 <= i < |subscribers| ==> subscribers[i].user != user
    ensures var after := MaintainAll(ledger, subscribers, now).0;
            && Lookup(after.subscriptions, user) == Lookup(ledger.subscriptions, user)
            && Lookup(after.sanctions, user) == Lookup(ledger.sanctions, user)
    decreases |subscribers|
  {
    hide Maintain, Lookup;
    if subscribers != [] {
      var n := |subscribers| - 1;
      OthersUntouched(ledger, subscribers[..n], user, now);
      TurnTouchesOneUser(MaintainAll(ledger, subscribers[..n], now).0, subscribers[n], now);
    }
  }

  /** A run reaches the subscriber in place `k` if and only if nobody before, judged on the rows
      as the run found them, has a message due that fails. */
  lemma {:induction false} ReachedIffNoneBlocks(ledger: Ledger, subscribers: seq<Subscriber>, k: nat, now: Instant)
    requires OnePerUser(subscribers) && k <= |subscribers|
    ensures MaintainAll(ledger, subscribers[..k], now).1 <==>
            forall j :: 0 <= j < k ==> !Blocks(ledger, subscribers[j], now)
  {
    hide Maintain, Blocks;
    if k > 0 {
      var before, last := subscribers[..k - 1], subscribers[k - 1];
      ReachedIffNoneBlocks(ledger, subscribers, k - 1, now);
      assert subscribers[..k][..k - 1] == before;
      OthersUntouched(ledger, before, last.user, now);
      TurnEndsIffBlocked(MaintainAll(ledger, before, now).0, last, now);
      SameRowsBlock(ledger, MaintainAll(ledger, before, now).0, last, now);
    }
  }

  lemma SameRowsBlock(a: Ledger, b: Ledger, subscriber: Subscriber, now: Instant)
    requires Lookup(a.subscriptions, subscriber.user) == Lookup(b.subscriptions, subscriber.user)
    requires Lookup(a.sanctions, subscriber.user) == Lookup(b.sanctions, subscriber.user)
    ensures Blocks(a, subscriber, now) <==> Blocks(b, subscriber, now)
  {}
}
