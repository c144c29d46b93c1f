/**
 What was sold was reported as paid: every settled order took a payment of its own, in
 its currency and for at least its amount, that a callback or a poll had announced.
 */
module Sales {
  import opened Wrappers
  import opened Domain
  import opened Finite
  import opened Protocol
  import opened RefundLedger
  import opened OrderBook

  // ---- what an announcement is

  /** The step reports the payment: a callback under the order's trade number, or a poll of the order. */
  ghost predicate Announces(s: State, e: Event, p: Payment) {
    || (e.CallbackSeen? && e.outTradeNo in s.byOutTradeNo && p.orderId == s.byOutTradeNo[e.outTradeNo] &&
        p.payMethod == e.m && p.txId == e.txId && p.amount == e.amount)
    || (e.PollHit? && e.orderId in s.orders && p.orderId == e.orderId &&
        p.payMethod == s.orders[e.orderId].payMethod && p.txId == e.txId && p.amount == e.amount)
  }

  ghost predicate AnnouncedAt(events: seq<Event>, run: seq<State>, k: nat, p: Payment) {
    k < |events| && k < |run| && Announces(run[k], events[k], p)
  }

  ghost predicate Announced(events: seq<Event>, run: seq<State>, i: nat, p: Payment) {
    exists k :: 0 <= k < i && AnnouncedAt(events, run, k, p)
  }

  lemma UnderWayIsAnnounced(cfg: Config, s: State, e: Event, p: Payment)
    requires p in Apply(cfg, s, e).inflight
    ensures p in s.inflight || Announces(s, e, p)
  {
    hide Create, Expire, IssueRefund, ResolveRefund, Remind, Deactivate, SweepSeen, ApplyPayment;
  }

  /** Whatever is under way has been announced. */
  lemma {:induction false} UnderWayWasAnnounced(cfg: Config, chain: Chain, events: seq<Event>, run: seq<State>, i: nat, p: Payment)
    requires IsRun(cfg, chain, events, run) && i < |run| && p in run[i].inflight
    ensures Announced(events, run, i, p)
  {
    hide Enabled, Apply, Announces;
    if i > 0 {
      UnderWayIsAnnounced(cfg, run[i - 1], events[i - 1], p);
      if p in run[i - 1].inflight {
        UnderWayWasAnnounced(cfg, chain, events, run, i - 1, p);
        var k :| 0 <= k < i - 1 && AnnouncedAt(events, run, k, p);
      } else {
        assert AnnouncedAt(events, run, i - 1, p);
      }
    }
  }

  // ---- orders remember what they took

  /** The order was paid by `p`, at the time `t`. */
  predicate TookPayment(o: Order, p: Payment, t: Time) {
    && (IsUsdt(p.payMethod) <==> IsUsdt(o.payMethod)) && p.amount >= o.amount
    && o.providerTxnId == Some(p.txId) && o.paidAt == Some(t)
  }

  ghost predicate SameSale(o: Order, o': Order) {
    && o'.payMethod == o.payMethod && o'.amount == o.amount && o'.providerTxnId == o.providerTxnId && o'.paidAt == o.paidAt
    && o'.outTradeNo == o.outTradeNo
  }

  /** Order `id` is as it was, or becomes paid by the payment that is delivered. */
  ghost predicate PaidByStep(s: State, s': State, e: Event, id: OrderId) {
    && id in s'.orders
    && if id in s.orders && Refundable(s.orders[id]) then Refundable(s'.orders[id]) && SameSale(s.orders[id], s'.orders[id])
       else Refundable(s'.orders[id]) ==>
         e.PaymentDelivered? && e.p.orderId == id && e.p in s.inflight && TookPayment(s'.orders[id], e.p, s.now)
  }

  lemma DeliverSale(cfg: Config, s: State, p: Payment, newSub: SubId, id: OrderId)
    requires id in s.orders && p in s.inflight
    ensures PaidByStep(s, Deliver(cfg, s, p, newSub), PaymentDelivered(p, newSub), id)
  {
    hide Deliver;
    PaymentOutcome(cfg, s, p, newSub);
  }

  lemma RefundSale(cfg: Config, s: State, e: Event, id: OrderId)
    requires Balanced(s) && (e.RefundIssued? || e.RefundResolved?) && id in s.orders
    ensures PaidByStep(s, Apply(cfg, s, e), e, id)
  {
    hide OrderBalanced;
    if e.RefundResolved? && AwaitsResult(s, e.outRefundNo) {
      assert s.byOutRefundNo[e.outRefundNo] in s.refunds;
    }
  }

  lemma UnchangedSale(s: State, s': State, e: Event, id: OrderId)
    requires s'.orders == s.orders && id in s.orders
    ensures PaidByStep(s, s', e, id)
  {
  }

  /** Order `x` is stored anew, and is not paid for. */
  lemma UnpaidSale(s: State, s': State, e: Event, x: OrderId, o: Order, id: OrderId)
    requires s'.orders == s.orders[x := o] && id in s'.orders && !Refundable(o)
    requires x in s.orders ==> !Refundable(s.orders[x])
    ensures PaidByStep(s, s', e, id)
  {
    hide Refundable;
    if id != x {
      assert s'.orders[id] == s.orders[id];
    }
  }

  lemma CreateSale(cfg: Config, s: State, e: Event, id: OrderId)
    requires e.CreateOrder? && e.id !in s.orders
    requires id in Create(cfg, s, e.req, e.id, e.outTradeNo, e.due, e.accepted).orders
    ensures PaidByStep(s, Create(cfg, s, e.req, e.id, e.outTradeNo, e.due, e.accepted), e, id)
  {
    hide PaidByStep, Create;
    NewIsUnpaid(cfg, s, e);
    var s' := Create(cfg, s, e.req, e.id, e.outTradeNo, e.due, e.accepted);
    if s'.orders == s.orders {
      UnchangedSale(s, s', e, id);
    } else {
      var o :| s'.orders == s.orders[e.id := o] && (o.status == Pending || o.status == Failed);
      UnpaidSale(s, s', e, e.id, o, id);
    }
  }

  lemma ExpireSale(s: State, e: Event, id: OrderId)
    requires e.OrderExpired? && id in Expire(s, e.id).orders
    ensures PaidByStep(s, Expire(s, e.id), e, id)
  {
    hide PaidByStep;
    var s' := Expire(s, e.id);
    if s' == s {
      UnchangedSale(s, s', e, id);
    } else {
      UnpaidSale(s, s', e, e.id, s'.orders[e.id], id);
    }
  }

  lemma StepSale(cfg: Config, chain: Chain, s: State, e: Event, id: OrderId)
    requires Balanced(s) && Enabled(cfg, chain, s, e) && id in Apply(cfg, s, e).orders
    ensures PaidByStep(s, Apply(cfg, s, e), e, id)
  {
    hide Balanced, Create, Deliver, Expire, IssueRefund, ResolveRefund, Mark, SweepSeen, Remind, Deactivate, IsAmountDue, OnChain;
    hide PaidByStep;
    match e {
      case CreateOrder(_, _, _, _, _) => CreateSale(cfg, s, e, id);
      case PaymentDelivered(p, newSub) => DeliverOrders(cfg, s, p, newSub); DeliverSale(cfg, s, p, newSub, id);
      case OrderExpired(_) => ExpireSale(s, e, id);
      case RefundIssued(_, _, _) => StepKeepsKeys(cfg, s, e); RefundSale(cfg, s, e, id);
      case RefundResolved(_, _) => StepKeepsKeys(cfg, s, e); RefundSale(cfg, s, e, id);
      case _ => OtherSteps(cfg, s, e); UnchangedSale(s, Apply(cfg, s, e), e, id);
    }
  }

  // ---- every run

  /** Step `j` delivered the order's payment, which had been announced before. */
  ghost predicate SoldAt(events: seq<Event>, run: seq<State>, j: nat, o: Order, id: OrderId) {
    && j < |events| && j < |run| && events[j].PaymentDelivered? && events[j].p.orderId == id
    && TookPayment(o, events[j].p, run[j].now) && Announced(events, run, j, events[j].p)
  }

  ghost predicate Sold(events: seq<Event>, run: seq<State>, i: nat, o: Order, id: OrderId) {
    exists j :: 0 <= j < i && SoldAt(events, run, j, o, id)
  }

  lemma SoldStays(events: seq<Event>, run: seq<State>, i: nat, o: Order, o': Order, id: OrderId)
    requires Sold(events, run, i, o, id) && SameSale(o, o')
    ensures Sold(events, run, i + 1, o', id)
  {
    var j :| 0 <= j < i && SoldAt(events, run, j, o, id);
    assert SoldAt(events, run, j, o', id);
  }

  /**
   In every run an order that has been paid took a payment of its own, in its currency
   and of at least its amount, at the time it records, and an earlier callback or poll
   had announced that payment.
   */
  lemma {:induction false} SettledWasPaid(cfg: Config, chain: Chain, events: seq<Event>, run: seq<State>, i: nat, id: OrderId)
    requires WellConfigured(cfg) && IsRun(cfg, chain, events, run) && i < |run|
    requires id in run[i].orders && Refundable(run[i].orders[id])
    ensures Sold(events, run, i, run[i].orders[id], id)
  {
    hide Enabled, Apply, Balanced, WellConfigured, Refundable, TookPayment, Announced, SameSale, Sold;
    if i > 0 {
      var (s, s', e) := (run[i - 1], run[i], events[i - 1]);
      AlwaysBalanced(cfg, chain, events, run, i - 1);
      StepSale(cfg, chain, s, e, id);
      if id in s.orders && Refundable(s.orders[id]) {
        SettledWasPaid(cfg, chain, events, run, i - 1, id);
        SoldStays(events, run, i - 1, s.orders[id], s'.orders[id], id);
      } else {
        UnderWayWasAnnounced(cfg, chain, events, run, i - 1, e.p);
        SoldNow(events, run, i - 1, s'.orders[id], id);
      }
    }
  }

  lemma SoldNow(events: seq<Event>, run: seq<State>, j: nat, o: Order, id: OrderId)
    requires SoldAt(events, run, j, o, id)
    ensures Sold(events, run, j + 1, o, id)
  {
  }

  // ---- what the reports add up to

  /** Step `k` reported a payment for the order, in its currency and of at least its amount. */
  ghost predicate ReportedAt(events: seq<Event>, run: seq<State>, k: nat, o: Order, id: OrderId) {
    exists p :: AnnouncedAt(events, run, k, p) && p.orderId == id && (IsUsdt(p.payMethod) <==> IsUsdt(o.payMethod)) && p.amount >= o.amount
  }

  lemma SettledWasReported(cfg: Config, chain: Chain, events: seq<Event>, run: seq<State>, i: nat, id: OrderId)
    requires WellConfigured(cfg) && IsRun(cfg, chain, events, run) && i < |run|
    requires id in run[i].orders && Refundable(run[i].orders[id])
    ensures exists k :: 0 <= k < i && ReportedAt(events, run, k, run[i].orders[id], id)
  {
    hide IsRun, WellConfigured, Announces;
    SettledWasPaid(cfg, chain, events, run, i, id);
    var j :| 0 <= j < i && SoldAt(events, run, j, run[i].orders[id], id);
    var k :| 0 <= k < j && AnnouncedAt(events, run, k, events[j].p);
    assert ReportedAt(events, run, k, run[i].orders[id], id);
  }

  ghost function ReportOf(events: seq<Event>, run: seq<State>, i: nat): OrderId -> int
    requires i < |run|
  {
    id => if id in run[i].orders && exists k :: 0 <= k < i && ReportedAt(events, run, k, run[i].orders[id], id)
          then var k :| 0 <= k < i && ReportedAt(events, run, k, run[i].orders[id], id); k
          else 0
  }

  /** What a callback or poll reported in CNY at step `k`; nothing for other steps. */
  ghost function CnyReported(events: seq<Event>, run: seq<State>): int -> int {
    k => if !(0 <= k < |events| && k < |run|) then 0
         else if events[k].CallbackSeen? && !IsUsdt(events[k].m) then AtLeast0(events[k].amount)
         else if events[k].PollHit? && events[k].orderId in run[k].orders && !IsUsdt(run[k].orders[events[k].orderId].payMethod)
         then AtLeast0(events[k].amount)
         else 0
  }

  function AtLeast0(x: int): int {
    if x < 0 then 0 else x
  }

  ghost function CnySold(orders: Orders): set<OrderId> {
    set id | id in orders && !IsUsdt(orders[id].payMethod) && Refundable(orders[id])
  }

  ghost function CnySale(orders: Orders): OrderId -> int {
    id => if id in orders && !IsUsdt(orders[id].payMethod) && Refundable(orders[id]) then orders[id].amount else 0
  }

  lemma SaleIsReported(cfg: Config, chain: Chain, events: seq<Event>, run: seq<State>, i: nat, id: OrderId)
    requires WellConfigured(cfg) && IsRun(cfg, chain, events, run) && i < |run| && id in CnySold(run[i].orders)
    ensures id in run[i].orders
    ensures 0 <= ReportOf(events, run, i)(id) < i
    ensures ReportedAt(events, run, ReportOf(events, run, i)(id), run[i].orders[id], id)
  {
    hide IsRun, WellConfigured, Refundable, ReportedAt;
    assert Refundable(run[i].orders[id]);
    SettledWasReported(cfg, chain, events, run, i, id);
  }

  lemma ReportCovers(events: seq<Event>, run: seq<State>, k: nat, orders: Orders, id: OrderId)
    requires id in CnySold(orders) && id in orders && ReportedAt(events, run, k, orders[id], id)
    ensures CnySale(orders)(id) <= CnyReported(events, run)(k)
  {
  }

  lemma ReportsDiffer(cfg: Config, chain: Chain, events: seq<Event>, run: seq<State>, i: nat, a: OrderId, b: OrderId)
    requires WellConfigured(cfg) && IsRun(cfg, chain, events, run) && i < |run|
    requires a in CnySold(run[i].orders) && b in CnySold(run[i].orders)
    requires ReportOf(events, run, i)(a) == ReportOf(events, run, i)(b)
    ensures a == b
  {
    hide IsRun, WellConfigured, Refundable, ReportedAt, ReportOf;
    SaleIsReported(cfg, chain, events, run, i, a);
    SaleIsReported(cfg, chain, events, run, i, b);
    OneOrderEach(events, run, ReportOf(events, run, i)(a), run[i].orders[a], a, run[i].orders[b], b);
  }

  lemma ReportsAreNonNegative(events: seq<Event>, run: seq<State>, k: int)
    ensures CnyReported(events, run)(k) >= 0
  {
  }

  lemma SalesArePaired(cfg: Config, chain: Chain, events: seq<Event>, run: seq<State>, i: nat)
    requires WellConfigured(cfg) && IsRun(cfg, chain, events, run) && i < |run|
    ensures Paired(CnySold(run[i].orders), CnySale(run[i].orders), Range(0, i), CnyReported(events, run), ReportOf(events, run, i))
  {
    hide IsRun, WellConfigured, CnySold, ReportedAt, CnySale, CnyReported, ReportOf;
    var (orders, f, g, h) := (run[i].orders, CnySale(run[i].orders), CnyReported(events, run), ReportOf(events, run, i));
    forall k | k in Range(0, i)
      ensures g(k) >= 0
    {
      ReportsAreNonNegative(events, run, k);
    }
    forall id | id in CnySold(orders)
      ensures h(id) in Range(0, i) && f(id) <= g(h(id))
    {
      SaleIsReported(cfg, chain, events, run, i, id);
      ReportCovers(events, run, h(id), orders, id);
    }
    forall a, b | a in CnySold(orders) && b in CnySold(orders) && h(a) == h(b)
      ensures a == b
    {
      ReportsDiffer(cfg, chain, events, run, i, a, b);
    }
  }

  /** A report is about one order. */
  lemma OneOrderEach(events: seq<Event>, run: seq<State>, k: nat, o: Order, a: OrderId, o': Order, b: OrderId)
    requires ReportedAt(events, run, k, o, a) && ReportedAt(events, run, k, o', b)
    ensures a == b
  {
  }

  /** In every run the CNY sales together never exceed what callbacks and polls have reported in CNY. */
  lemma ReportsCoverSales(cfg: Config, chain: Chain, events: seq<Event>, run: seq<State>, i: nat)
    requires WellConfigured(cfg) && IsRun(cfg, chain, events, run) && i < |run|
    ensures Sum(run[i].orders.Keys, CnySale(run[i].orders)) <= Sum(Range(0, i), CnyReported(events, run))
  {
    SalesArePaired(cfg, chain, events, run, i);
    hide IsRun, WellConfigured, Paired, ReportOf, CnyReported, Refundable;
    SumRest(run[i].orders.Keys, CnySold(run[i].orders), CnySale(run[i].orders));
    SumPaired(CnySold(run[i].orders), CnySale(run[i].orders), Range(0, i), CnyReported(events, run), ReportOf(events, run, i));
  }
}
