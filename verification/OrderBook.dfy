/**
 The order book: what a new order says, under which numbers it is found, and that its
 terms never change.
 */
module OrderBook {
  import opened Wrappers
  import opened Domain
  import opened Protocol

  // ---- what a new order says

  /** The plan's list price for the method; on a shared address up to `maxDelta` more tells orders apart. */
  ghost predicate Priced(cfg: Config, planId: PlanId, m: Method, amount: int) {
    planId in cfg.plans && match m
    case Wechat => amount == cfg.plans[planId].priceCnyFen
    case Alipay => amount == cfg.plans[planId].priceCnyFen
    case Usdt =>
      var list := cfg.plans[planId].priceUsdtMicro;
      list <= amount <= list + (if cfg.perOrderAddresses then 0 else cfg.maxDelta)
  }

  /** Some pending USDT order asks for this amount. */
  ghost predicate AskedFor(orders: map<OrderId, Order>, amount: int) {
    exists id :: id in orders && orders[id].payMethod == Usdt && orders[id].status == Pending && orders[id].amount == amount
  }

  /** On a shared address the amount due is the first from the list price on that no pending order asks for. */
  lemma SharedAmountDue(cfg: Config, orders: map<OrderId, Order>, plan: Plan, amount: int)
    requires !cfg.perOrderAddresses
    ensures IsAmountDue(cfg, orders, plan, Usdt, amount) <==>
            && 0 <= amount - plan.priceUsdtMicro <= cfg.maxDelta && !AskedFor(orders, amount)
            && forall a :: plan.priceUsdtMicro <= a < amount ==> AskedFor(orders, a)
  {
    assert forall a :: a in PendingUsdtAmounts(orders) <==> AskedFor(orders, a);
  }

  /** Nothing has been paid or given back, and the order is payable for its time if the provider took it. */
  ghost predicate IsFresh(cfg: Config, o: Order, accepted: bool, now: Time) {
    && o.status == (if accepted then Pending else Failed)
    && o.providerTxnId == None && o.paidAt == None && o.refundedAmount == 0
    && o.createdAt == now && o.expiresAt - o.createdAt == cfg.ttlMs
  }

  /**
   A new order has the buyer, plan and method that were asked for, at that plan's price,
   and is found under its trade number and its idempotency key; a trade number that is
   taken leaves the book as it is.
   */
  lemma OrderCreated(cfg: Config, s: State, req: OrderRequest, id: OrderId, no: Label, amount: nat, accepted: bool)
    requires CanCreate(cfg, s, req, id, amount)
    ensures var s' := Create(cfg, s, req, id, no, amount, accepted);
            if no in s.byOutTradeNo then
              s'.orders == s.orders && s'.byOutTradeNo == s.byOutTradeNo && s'.byIdempotencyKey == s.byIdempotencyKey
            else
              id in s'.orders && s'.orders == s.orders[id := s'.orders[id]] &&
              var o := s'.orders[id];
              && o.id == id && o.outTradeNo == no && o.userId == req.userId && o.planId == req.planId && o.payMethod == req.payMethod
              && Priced(cfg, req.planId, req.payMethod, o.amount) && IsFresh(cfg, o, accepted, s.now)
              && s'.byOutTradeNo == s.byOutTradeNo[no := id]
              && (req.key.Some? ==> s'.byIdempotencyKey == s.byIdempotencyKey[req.key.value := id])
              && (req.key.None? ==> s'.byIdempotencyKey == s.byIdempotencyKey)
  {
  }

  /** An order gets an address of its own exactly if USDT orders have them, and then one that no earlier order has had. */
  lemma OrderAddress(cfg: Config, s: State, req: OrderRequest, id: OrderId, no: Label, amount: nat, accepted: bool)
    requires no !in s.byOutTradeNo
    ensures var s' := Create(cfg, s, req, id, no, amount, accepted);
            id in s'.orders &&
            match s'.orders[id].depositAddress
            case None => s'.depositCounter == s.depositCounter && (req.payMethod != Usdt || !cfg.perOrderAddresses)
            case Some(x) =>
              && req.payMethod == Usdt && cfg.perOrderAddresses && x.Derived?
              && cfg.hdStartIndex + s.depositCounter < x.index == cfg.hdStartIndex + s'.depositCounter
  {
  }

  lemma NewIsUnpaid(cfg: Config, s: State, e: Event)
    requires e.CreateOrder?
    ensures var orders := Create(cfg, s, e.req, e.id, e.outTradeNo, e.due, e.accepted).orders;
            orders == s.orders || exists o :: orders == s.orders[e.id := o] && (o.status == Pending || o.status == Failed)
  {
    if e.outTradeNo !in s.byOutTradeNo {
      var s' := Create(cfg, s, e.req, e.id, e.outTradeNo, e.due, e.accepted);
      assert s'.orders[e.id].status == Pending || s'.orders[e.id].status == Failed;
    }
  }

  // ---- what a payment does to the orders

  predicate IsUsdt(m: Method) {
    m == Usdt
  }

  /** The order is pending, and the payment is in its currency and enough. */
  predicate Suffices(o: Order, p: Payment) {
    o.status == Pending && (IsUsdt(p.payMethod) <==> IsUsdt(o.payMethod)) && o.amount <= p.amount
  }

  /**
   A payment that suffices, even one that is more than enough, makes its order fulfilled
   and records the transaction and the time; any other changes neither orders nor access.
   */
  lemma PaymentOutcome(cfg: Config, s: State, p: Payment, newSub: SubId)
    ensures var s' := Deliver(cfg, s, p, newSub);
            if p.orderId in s.orders && Suffices(s.orders[p.orderId], p) then
              var o := s.orders[p.orderId];
              s'.orders == s.orders[p.orderId := o.(status := if o.planId in cfg.plans then Fulfilled else Paid,
                                                    providerTxnId := Some(p.txId), paidAt := Some(s.now))]
            else s'.orders == s.orders && s'.subs == s.subs && s'.activeByUser == s.activeByUser
  {
    hide Grant;
  }

  /** An underpayment leaves the order as it is, and a pending one pending. */
  lemma UnderpaidStaysPending(cfg: Config, s: State, p: Payment, newSub: SubId)
    requires p.orderId in s.orders && p.amount < s.orders[p.orderId].amount
    ensures Deliver(cfg, s, p, newSub).orders == s.orders
  {
    hide Grant;
  }

  // ---- terms

  /** Who ordered what, at which price and until when. */
  ghost predicate SameTerms(o: Order, o': Order) {
    && o'.id == o.id && o'.outTradeNo == o.outTradeNo && o'.userId == o.userId && o'.planId == o.planId
    && o'.payMethod == o.payMethod && o'.amount == o.amount && o'.createdAt == o.createdAt && o'.expiresAt == o.expiresAt
    && o'.depositAddress == o.depositAddress
  }

  ghost predicate KeepsTerms(s: State, s': State, id: OrderId) {
    id in s.orders ==> id in s'.orders && SameTerms(s.orders[id], s'.orders[id])
  }

  lemma OneOrderKeeps(s: State, s': State, x: OrderId, id: OrderId)
    requires s'.orders == s.orders || (x in s'.orders && s'.orders == s.orders[x := s'.orders[x]] &&
                                       (x in s.orders ==> SameTerms(s.orders[x], s'.orders[x])))
    requires id in s.orders
    ensures KeepsTerms(s, s', id)
  {
  }

  lemma CreateKeepsTerms(cfg: Config, s: State, req: OrderRequest, x: OrderId, no: Label, amount: nat, accepted: bool, id: OrderId)
    requires x !in s.orders && id in s.orders
    ensures KeepsTerms(s, Create(cfg, s, req, x, no, amount, accepted), id)
  {
    hide NewOrder, KeyIndex, SameTerms;
    OneOrderKeeps(s, Create(cfg, s, req, x, no, amount, accepted), x, id);
  }

  lemma DeliverKeepsTerms(cfg: Config, s: State, p: Payment, newSub: SubId, id: OrderId)
    requires id in s.orders
    ensures KeepsTerms(s, Deliver(cfg, s, p, newSub), id)
  {
    hide Deliver, KeepsTerms, Suffices;
    PaymentOutcome(cfg, s, p, newSub);
    OneOrderKeeps(s, Deliver(cfg, s, p, newSub), p.orderId, id);
  }

  lemma ExpireKeepsTerms(s: State, x: OrderId, id: OrderId)
    requires id in s.orders
    ensures KeepsTerms(s, Expire(s, x), id)
  {
    hide KeepsTerms;
    OneOrderKeeps(s, Expire(s, x), x, id);
  }

  lemma IssueKeepsTerms(cfg: Config, s: State, req: RefundRequest, rid: RefundId, answer: RefundStatus, id: OrderId)
    requires id in s.orders
    ensures KeepsTerms(s, IssueRefund(cfg, s, req, rid, answer), id)
  {
    hide KeepsTerms;
    OneOrderKeeps(s, IssueRefund(cfg, s, req, rid, answer), req.orderId, id);
  }

  lemma ResolveKeepsTerms(s: State, no: Label, success: bool, id: OrderId)
    requires id in s.orders
    ensures KeepsTerms(s, ResolveRefund(s, no, success), id)
  {
    hide KeepsTerms;
    if AwaitsResult(s, no) {
      OneOrderKeeps(s, ResolveRefund(s, no, success), s.refunds[s.byOutRefundNo[no]].orderId, id);
    } else {
      OneOrderKeeps(s, s, id, id);
    }
  }

  lemma StepKeepsTerms(cfg: Config, chain: Chain, s: State, e: Event, id: OrderId)
    requires Enabled(cfg, chain, s, e) && id in s.orders
    ensures id in Apply(cfg, s, e).orders && SameTerms(s.orders[id], Apply(cfg, s, e).orders[id])
  {
    hide SameTerms, Create, Deliver, Expire, IssueRefund, ResolveRefund, Mark, SweepSeen, Remind, Deactivate, OnChain, IsAmountDue;
    match e {
      case CreateOrder(req, x, no, amount, accepted) => CreateKeepsTerms(cfg, s, req, x, no, amount, accepted, id);
      case PaymentDelivered(p, newSub) => DeliverKeepsTerms(cfg, s, p, newSub, id);
      case OrderExpired(x) => ExpireKeepsTerms(s, x, id);
      case RefundIssued(req, rid, answer) => IssueKeepsTerms(cfg, s, req, rid, answer, id);
      case RefundResolved(no, success) => ResolveKeepsTerms(s, no, success, id);
      case _ => OtherSteps(cfg, s, e); OneOrderKeeps(s, Apply(cfg, s, e), id, id);
    }
  }

  lemma SameTermsCompose(a: Order, b: Order, c: Order)
    ensures SameTerms(a, a)
    ensures SameTerms(a, b) && SameTerms(b, c) ==> SameTerms(a, c)
  {
  }

  /** Along every run an order keeps its terms. */
  lemma {:induction false} TermsNeverChange(cfg: Config, chain: Chain, events: seq<Event>, run: seq<State>, i: nat, j: nat, id: OrderId)
    requires IsRun(cfg, chain, events, run) && i <= j < |run| && id in run[i].orders
    ensures id in run[j].orders && SameTerms(run[i].orders[id], run[j].orders[id])
    decreases j - i
  {
    hide Enabled, Apply, SameTerms;
    if i == j {
      SameTermsCompose(run[i].orders[id], run[i].orders[id], run[i].orders[id]);
    } else {
      StepKeepsTerms(cfg, chain, run[i], events[i], id);
      TermsNeverChange(cfg, chain, events, run, i + 1, j, id);
      SameTermsCompose(run[i].orders[id], run[i + 1].orders[id], run[j].orders[id]);
    }
  }

  // ---- what the book keeps

  /** Every order is the one found under its own trade number, and costs what its plan costs. */
  ghost predicate BookOk(cfg: Config, s: State) {
    && (forall id :: id in s.orders ==>
          && s.orders[id].id == id && s.orders[id].outTradeNo in s.byOutTradeNo && s.byOutTradeNo[s.orders[id].outTradeNo] == id
          && Priced(cfg, s.orders[id].planId, s.orders[id].payMethod, s.orders[id].amount)
          && s.orders[id].payMethod in cfg.methods
          && s.orders[id].expiresAt - s.orders[id].createdAt == cfg.ttlMs && s.orders[id].createdAt <= s.now)
    && (forall no :: no in s.byOutTradeNo ==> s.byOutTradeNo[no] in s.orders && s.orders[s.byOutTradeNo[no]].outTradeNo == no)
    && (forall key :: key in s.byIdempotencyKey ==> s.byIdempotencyKey[key] in s.orders)
  }

  /** The orders are the same apart from what may change, and so are the indexes. */
  ghost predicate SameBook(s: State, s': State) {
    && s'.orders.Keys == s.orders.Keys && (forall id :: id in s.orders ==> KeepsTerms(s, s', id))
    && s'.byOutTradeNo == s.byOutTradeNo && s'.byIdempotencyKey == s.byIdempotencyKey && s'.now >= s.now
  }

  lemma TimePasses(cfg: Config, chain: Chain, s: State, e: Event)
    requires Enabled(cfg, chain, s, e)
    ensures Apply(cfg, s, e).now >= s.now
  {
    hide Create, Deliver, Expire, IssueRefund, ResolveRefund, Mark, SweepSeen, Remind, Deactivate, OnChain, CanCreate;
  }

  lemma SameBookKeeps(cfg: Config, s: State, s': State)
    requires BookOk(cfg, s) && SameBook(s, s')
    ensures BookOk(cfg, s')
  {
    hide Priced;
    forall id | id in s'.orders
      ensures id in s.orders && SameTerms(s.orders[id], s'.orders[id])
    {
      assert id in s'.orders.Keys;
      assert KeepsTerms(s, s', id);
    }
    forall no | no in s'.byOutTradeNo
      ensures s'.byOutTradeNo[no] in s'.orders && s'.orders[s'.byOutTradeNo[no]].outTradeNo == no
    {
      var id := s.byOutTradeNo[no];
      assert id in s.orders.Keys && KeepsTerms(s, s', id);
    }
    forall key | key in s'.byIdempotencyKey
      ensures s'.byIdempotencyKey[key] in s'.orders
    {
      assert s.byIdempotencyKey[key] in s.orders.Keys;
    }
  }

  lemma CreateKeepsBook(cfg: Config, s: State, req: OrderRequest, id: OrderId, no: Label, amount: nat, accepted: bool)
    requires BookOk(cfg, s) && CanCreate(cfg, s, req, id, amount)
    ensures BookOk(cfg, Create(cfg, s, req, id, no, amount, accepted))
  {
    OrderCreated(cfg, s, req, id, no, amount, accepted);
    assert id !in s.orders && req.payMethod in cfg.methods;
    hide Create, Priced, CanCreate;
    var s' := Create(cfg, s, req, id, no, amount, accepted);
    if no !in s.byOutTradeNo {
      NewInBook(cfg, s, s', id, no);
    } else {
      assert BookOk(cfg, s');
    }
  }

  lemma NewInBook(cfg: Config, s: State, s': State, id: OrderId, no: Label)
    requires BookOk(cfg, s) && id !in s.orders && no !in s.byOutTradeNo && s'.now == s.now
    requires id in s'.orders && s'.orders == s.orders[id := s'.orders[id]] && s'.byOutTradeNo == s.byOutTradeNo[no := id]
    requires var o := s'.orders[id];
             && o.id == id && o.outTradeNo == no && Priced(cfg, o.planId, o.payMethod, o.amount) && o.payMethod in cfg.methods
             && o.expiresAt - o.createdAt == cfg.ttlMs && o.createdAt == s.now
    requires forall key :: key in s'.byIdempotencyKey ==> s'.byIdempotencyKey[key] == id || (key in s.byIdempotencyKey && s.byIdempotencyKey[key] == s'.byIdempotencyKey[key])
    ensures BookOk(cfg, s')
  {
    hide Priced;
  }

  lemma DeliverKeepsKeys(cfg: Config, s: State, p: Payment, newSub: SubId)
    ensures Deliver(cfg, s, p, newSub).orders.Keys == s.orders.Keys
  {
    hide Deliver, Suffices;
    PaymentOutcome(cfg, s, p, newSub);
  }

  lemma ExpireKeepsKeys(s: State, x: OrderId)
    ensures Expire(s, x).orders.Keys == s.orders.Keys
  {
  }

  lemma IssueKeepsKeys(cfg: Config, s: State, req: RefundRequest, rid: RefundId, answer: RefundStatus)
    ensures IssueRefund(cfg, s, req, rid, answer).orders.Keys == s.orders.Keys
  {
    hide Reserve;
  }

  lemma ResolveKeepsKeys(s: State, no: Label, success: bool)
    ensures ResolveRefund(s, no, success).orders.Keys == s.orders.Keys
  {
    hide ResolveOrder;
  }

  lemma StepKeepsKeys(cfg: Config, s: State, e: Event)
    requires !e.CreateOrder?
    ensures Apply(cfg, s, e).orders.Keys == s.orders.Keys
  {
    hide Deliver, Expire, IssueRefund, ResolveRefund, Mark, SweepSeen, Remind, Deactivate;
    match e {
      case PaymentDelivered(p, newSub) => DeliverKeepsKeys(cfg, s, p, newSub);
      case OrderExpired(x) => ExpireKeepsKeys(s, x);
      case RefundIssued(req, rid, answer) => IssueKeepsKeys(cfg, s, req, rid, answer);
      case RefundResolved(no, success) => ResolveKeepsKeys(s, no, success);
      case _ => OtherSteps(cfg, s, e);
    }
  }

  lemma StepKeepsIndexes(cfg: Config, s: State, e: Event)
    requires !e.CreateOrder?
    ensures Apply(cfg, s, e).byOutTradeNo == s.byOutTradeNo && Apply(cfg, s, e).byIdempotencyKey == s.byIdempotencyKey
    ensures e.Tick? || Apply(cfg, s, e).now == s.now
  {
    hide Deliver, Expire, IssueRefund, ResolveRefund, Mark, SweepSeen, Remind, Deactivate;
  }

  lemma {:induction false} BookAlwaysOk(cfg: Config, chain: Chain, events: seq<Event>, run: seq<State>, i: nat)
    requires IsRun(cfg, chain, events, run) && i < |run|
    ensures BookOk(cfg, run[i])
  {
    hide Enabled, Apply, BookOk, KeepsTerms;
    if i == 0 {
      EmptyBook(cfg, run[0].now);
    } else {
      BookAlwaysOk(cfg, chain, events, run, i - 1);
      StepKeepsBook(cfg, chain, run[i - 1], events[i - 1]);
    }
  }

  lemma EmptyBook(cfg: Config, now: Time)
    ensures BookOk(cfg, Initial(now))
  {
  }

  lemma StepKeepsBook(cfg: Config, chain: Chain, s: State, e: Event)
    requires Enabled(cfg, chain, s, e) && BookOk(cfg, s)
    ensures BookOk(cfg, Apply(cfg, s, e))
  {
    hide BookOk, Create, CanCreate, OnChain, SameTerms;
    if e.CreateOrder? {
      CreateKeepsBook(cfg, s, e.req, e.id, e.outTradeNo, e.due, e.accepted);
    } else {
      StepKeepsIndexes(cfg, s, e);
      StepKeepsKeys(cfg, s, e);
      assert Apply(cfg, s, e).now >= s.now by { TimePasses(cfg, chain, s, e); }
      hide Enabled, Apply;
      forall id | id in s.orders
        ensures KeepsTerms(s, Apply(cfg, s, e), id)
      {
        StepKeepsTerms(cfg, chain, s, e, id);
      }
      SameBookKeeps(cfg, s, Apply(cfg, s, e));
    }
  }

  /** A key that has found an order finds the same order ever after. */
  lemma {:induction false} KeyFindsSameOrder(cfg: Config, chain: Chain, events: seq<Event>, run: seq<State>, i: nat, j: nat, key: Label)
    requires IsRun(cfg, chain, events, run) && i <= j < |run| && key in run[i].byIdempotencyKey
    ensures key in run[j].byIdempotencyKey && run[j].byIdempotencyKey[key] == run[i].byIdempotencyKey[key]
    decreases j - i
  {
    if i < j {
      StepKeepsKey(cfg, chain, run[i], events[i], key);
      hide Enabled, Apply;
      KeyFindsSameOrder(cfg, chain, events, run, i + 1, j, key);
    }
  }

  /** A request with a key that is repeated at any later time finds the order that the first one created. */
  lemma RepeatedKeyFindsOrder(cfg: Config, chain: Chain, events: seq<Event>, run: seq<State>, i: nat, j: nat)
    requires IsRun(cfg, chain, events, run) && i < j < |run| && events[i].CreateOrder? && events[i].req.key.Some?
    requires events[i].outTradeNo !in run[i].byOutTradeNo
    ensures var key := events[i].req.key.value;
            && key in run[j].byIdempotencyKey && run[j].byIdempotencyKey[key] == events[i].id && events[i].id in run[j].orders
            && run[j].orders[events[i].id].planId == events[i].req.planId && run[j].orders[events[i].id].userId == events[i].req.userId
  {
    var e := events[i];
    OrderCreated(cfg, run[i], e.req, e.id, e.outTradeNo, e.due, e.accepted);
    assert run[i + 1] == Create(cfg, run[i], e.req, e.id, e.outTradeNo, e.due, e.accepted);
    hide Enabled, Apply, Create;
    KeyFindsSameOrder(cfg, chain, events, run, i + 1, j, e.req.key.value);
    TermsNeverChange(cfg, chain, events, run, i + 1, j, e.id);
  }

  lemma CreateKeepsKey(cfg: Config, s: State, e: Event, key: Label)
    requires e.CreateOrder? && CanCreate(cfg, s, e.req, e.id, e.due) && key in s.byIdempotencyKey
    ensures var s' := Create(cfg, s, e.req, e.id, e.outTradeNo, e.due, e.accepted);
            key in s'.byIdempotencyKey && s'.byIdempotencyKey[key] == s.byIdempotencyKey[key]
  {
    hide IsAmountDue, NewOrder;
  }

  lemma StepKeepsKey(cfg: Config, chain: Chain, s: State, e: Event, key: Label)
    requires Enabled(cfg, chain, s, e) && key in s.byIdempotencyKey
    ensures key in Apply(cfg, s, e).byIdempotencyKey && Apply(cfg, s, e).byIdempotencyKey[key] == s.byIdempotencyKey[key]
  {
    hide Create, CanCreate, OnChain;
    if e.CreateOrder? {
      CreateKeepsKey(cfg, s, e, key);
    } else {
      StepKeepsIndexes(cfg, s, e);
    }
  }
}
