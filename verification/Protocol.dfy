/**
 The money protocol: what each critical section of the payment, refund and expiry
 services does to the stored records, and how such steps interleave in a run.

 A step is one critical section, which the per-order locker makes atomic, or one
 call of a store.  Between the steps of one request any other steps may happen; a
 verified payment waits in `inflight` between the mark in the dedupe store and its
 critical section, and may also be lost there.
 */
module Protocol {
  import opened Wrappers
  import opened Domain
  import opened UsdtTron

  datatype Config = Config(
    plans: map<PlanId, Plan>,
    methods: set<Method>,
    ttlMs: nat,
    maxDelta: nat,
    perOrderAddresses: bool,
    receiving: Address,
    hdStartIndex: nat,
    reminderWindowMs: nat,
    retentionMs: nat)

  /** The catalogue sells positive time for a positive price. */
  ghost predicate WellConfigured(cfg: Config) {
    forall p :: p in cfg.plans ==>
      cfg.plans[p].durationMs > 0 && cfg.plans[p].priceCnyFen > 0 && cfg.plans[p].priceUsdtMicro > 0
  }

  /** A payment a provider reported, in its method's currency, on its way to the order's critical section. */
  datatype Payment = Payment(orderId: OrderId, payMethod: Method, txId: TxId, amount: int)

  datatype Reminder = Reminder(subId: SubId, expiresAt: Time)

  datatype State = State(
    orders: map<OrderId, Order>,
    byOutTradeNo: map<Label, OrderId>,
    byIdempotencyKey: map<Label, OrderId>,
    refunds: map<RefundId, Refund>,
    byOutRefundNo: map<Label, RefundId>,
    subs: map<SubId, Subscription>,
    activeByUser: map<UserId, SubId>,
    seen: map<EventKey, Time>,
    inflight: set<Payment>,
    depositCounter: nat,
    reminders: seq<Reminder>,
    now: Time)

  function Initial(now: Time): State {
    State(map[], map[], map[], map[], map[], map[], map[], map[], {}, 0, [], now)
  }

  /** Orders are found under the same numbers. */
  predicate SameIndexes(s: State, s': State) {
    s'.byOutTradeNo == s.byOutTradeNo && s'.byIdempotencyKey == s.byIdempotencyKey
  }

  // ---- creating orders

  datatype OrderRequest = OrderRequest(userId: UserId, planId: PlanId, payMethod: Method, key: Option<Label>)

  function PendingUsdtAmounts(orders: map<OrderId, Order>): set<int> {
    set id | id in orders && orders[id].payMethod == Usdt && orders[id].status == Pending :: orders[id].amount
  }

  /** `amount` is what an order for the plan costs, made unique among pending orders on a shared address. */
  ghost predicate IsAmountDue(cfg: Config, orders: map<OrderId, Order>, plan: Plan, m: Method, amount: int) {
    if m != Usdt then amount == plan.priceCnyFen
    else if cfg.perOrderAddresses then amount == plan.priceUsdtMicro
    else IsLeastFree(amount, plan.priceUsdtMicro, PendingUsdtAmounts(orders), cfg.maxDelta)
  }

  /** There is at most one amount due. */
  lemma AmountDueUnique(cfg: Config, orders: map<OrderId, Order>, plan: Plan, m: Method, a: int, b: int)
    requires IsAmountDue(cfg, orders, plan, m, a) && IsAmountDue(cfg, orders, plan, m, b)
    ensures a == b
  {
    if m == Usdt && !cfg.perOrderAddresses {
      LeastFreeUnique(a, b, plan.priceUsdtMicro, PendingUsdtAmounts(orders), cfg.maxDelta);
    }
  }

  predicate UsesDepositAddress(cfg: Config, m: Method) {
    m == Usdt && cfg.perOrderAddresses
  }

  /** A new order: payable within its time if the provider accepted it, and failed otherwise. */
  function NewOrder(cfg: Config, now: Time, counter: nat, req: OrderRequest, id: OrderId, outTradeNo: Label, amount: nat,
                    accepted: bool): Order {
    var deposit := if UsesDepositAddress(cfg, req.payMethod) then Some(Derived(cfg.hdStartIndex + counter)) else None;
    Order(id, outTradeNo, req.userId, req.planId, req.payMethod, amount,
          if accepted then Pending else Failed, None, now, now + cfg.ttlMs, None, 0, deposit)
  }

  function KeyIndex(index: map<Label, OrderId>, key: Option<Label>, id: OrderId): map<Label, OrderId> {
    if key.Some? then index[key.value := id] else index
  }

  /** A new order is stored under its numbers; an order with an address of its own uses up an index. */
  function Create(cfg: Config, s: State, req: OrderRequest, id: OrderId, outTradeNo: Label, amount: nat, accepted: bool): (s': State)
    ensures s'.now == s.now && s'.subs == s.subs && s'.inflight == s.inflight && s'.refunds == s.refunds && s'.reminders == s.reminders
  {
    var counter := if UsesDepositAddress(cfg, req.payMethod) then s.depositCounter + 1 else s.depositCounter;
    if outTradeNo in s.byOutTradeNo then s.(depositCounter := counter) else
      s.(orders := s.orders[id := NewOrder(cfg, s.now, counter, req, id, outTradeNo, amount, accepted)],
         byOutTradeNo := s.byOutTradeNo[outTradeNo := id],
         byIdempotencyKey := KeyIndex(s.byIdempotencyKey, req.key, id),
         depositCounter := counter)
  }

  /** The request is new, well-formed and has an amount: this is when an order is created. */
  ghost predicate CanCreate(cfg: Config, s: State, req: OrderRequest, id: OrderId, amount: nat) {
    && id !in s.orders
    && (req.key.Some? ==> req.key.value !in s.byIdempotencyKey)
    && req.planId in cfg.plans && req.payMethod in cfg.methods
    && IsAmountDue(cfg, s.orders, cfg.plans[req.planId], req.payMethod, amount)
  }

  // ---- settlement

  /** Marks an event, if it is new, and sends its payment on its way. */
  function Mark(s: State, key: EventKey, p: Option<Payment>): (s': State)
    ensures s'.(seen := s.seen, inflight := s.inflight) == s
  {
    if key in s.seen then s else
      s.(seen := s.seen[key := s.now], inflight := if p.Some? then s.inflight + {p.value} else s.inflight)
  }

  /** The access that fulfilment of an order grants: more time on the active subscription, or a new one. */
  function Grant(cfg: Config, s: State, o: Order, newSub: SubId): Subscription
    requires o.planId in cfg.plans
  {
    var addMs := cfg.plans[o.planId].durationMs;
    if o.userId in s.activeByUser && s.activeByUser[o.userId] in s.subs &&
       s.subs[s.activeByUser[o.userId]].expiresAt > s.now
    then
      var current := s.subs[s.activeByUser[o.userId]];
      current.(expiresAt := current.expiresAt + addMs, orderIds := current.orderIds + [o.id],
               active := true, notifiedAt := None)
    else
      Subscription(newSub, o.userId, s.now, s.now + addMs, true, [o.id], None)
  }

  /** An order accepts a payment while it is pending, in its currency, and not for less than its amount. */
  predicate Accepts(o: Order, p: Payment) {
    o.status == Pending && CurrencyOf(p.payMethod) == CurrencyOf(o.payMethod) && p.amount >= o.amount
  }

  function PaidOrder(o: Order, p: Payment, now: Time): Order {
    o.(status := Paid, providerTxnId := Some(p.txId), paidAt := Some(now))
  }

  /**
   The critical section of a payment: the order becomes paid and is fulfilled at
   once.  It would stay paid if its plan were gone from the catalogue.
   */
  function ApplyPayment(cfg: Config, s: State, p: Payment, newSub: SubId): (s': State)
    ensures s'.now == s.now && s'.depositCounter == s.depositCounter && s'.inflight == s.inflight && s'.refunds == s.refunds && s'.reminders == s.reminders
    ensures SameIndexes(s, s')
  {
    if p.orderId !in s.orders || !Accepts(s.orders[p.orderId], p) then s else
      var o := s.orders[p.orderId];
      var paid := PaidOrder(o, p, s.now);
      if o.planId !in cfg.plans then s.(orders := s.orders[p.orderId := paid]) else
        var sub := Grant(cfg, s, o, newSub);
        s.(orders := s.orders[p.orderId := paid.(status := Fulfilled)],
           subs := s.subs[sub.id := sub],
           activeByUser := s.activeByUser[o.userId := sub.id])
  }

  function Deliver(cfg: Config, s: State, p: Payment, newSub: SubId): (s': State)
    ensures s'.now == s.now && s'.depositCounter == s.depositCounter && s'.refunds == s.refunds && s'.reminders == s.reminders
    ensures SameIndexes(s, s')
  {
    var paid := ApplyPayment(cfg, s, p, newSub);
    paid.(inflight := paid.inflight - {p})
  }

  /** The critical section that expires an order whose payment window has elapsed. */
  function Expire(s: State, id: OrderId): (s': State)
    ensures s'.now == s.now && s'.depositCounter == s.depositCounter && s'.inflight == s.inflight && s'.subs == s.subs && s'.refunds == s.refunds && s'.reminders == s.reminders
    ensures SameIndexes(s, s')
  {
    if id in s.orders && s.orders[id].status == Pending && s.orders[id].expiresAt <= s.now
    then s.(orders := s.orders[id := s.orders[id].(status := Expired)])
    else s
  }

  // ---- refunds

  datatype RefundRequest = RefundRequest(orderId: OrderId, amount: Option<int>, outRefundNo: Label)

  function RefundAmount(o: Order, req: RefundRequest): int {
    if req.amount.Some? then req.amount.value else o.amount - o.refundedAmount
  }

  /** USDT has no refund channel, so its refunds are recorded for an operator. */
  function RefundStatusFrom(m: Method, answer: RefundStatus): RefundStatus {
    if m == Usdt then RefundManual else answer
  }

  /** Why a refund request is turned down before a provider is asked. */
  function RefundCheck(cfg: Config, s: State, req: RefundRequest): Result<int> {
    if req.orderId !in s.orders then Err(NotFound) else
      var o := s.orders[req.orderId];
      if o.status != Paid && o.status != Fulfilled then Err(InvalidState)
      else if RefundAmount(o, req) <= 0 then Err(InvalidInput)
      else if RefundAmount(o, req) > o.amount - o.refundedAmount then Err(InvalidInput)
      else if o.payMethod !in cfg.methods then Err(InvalidInput)
      else Ok(RefundAmount(o, req))
  }

  /** Records the reserved total; the order is refunded once it is complete by a settled refund. */
  function Reserve(o: Order, total: int, settled: bool): Order {
    o.(refundedAmount := total,
       status := if settled && total >= o.amount && o.status != Refunded then Refunded else o.status)
  }

  /** The critical section that issues a refund; `answer` is what the provider said. */
  function IssueRefund(cfg: Config, s: State, req: RefundRequest, rid: RefundId, answer: RefundStatus): (s': State)
    ensures s'.now == s.now && s'.depositCounter == s.depositCounter && s'.inflight == s.inflight && s'.subs == s.subs && s'.reminders == s.reminders
    ensures SameIndexes(s, s')
  {
    if RefundCheck(cfg, s, req).Err? || req.outRefundNo in s.byOutRefundNo then s else
      var o := s.orders[req.orderId];
      var amount := RefundAmount(o, req);
      var status := RefundStatusFrom(o.payMethod, answer);
      s.(refunds := s.refunds[rid := Refund(rid, req.orderId, req.outRefundNo, amount, status)],
         byOutRefundNo := s.byOutRefundNo[req.outRefundNo := rid],
         orders := if status == RefundFailed then s.orders
                   else s.orders[req.orderId := Reserve(o, o.refundedAmount + amount, IsSettledRefund(status))])
  }

  /** The refund that waits for a result under this number, if any. */
  predicate AwaitsResult(s: State, outRefundNo: Label) {
    outRefundNo in s.byOutRefundNo && s.byOutRefundNo[outRefundNo] in s.refunds &&
    s.refunds[s.byOutRefundNo[outRefundNo]].status == RefundPending
  }

  function Max0(x: int): int {
    if x < 0 then 0 else x
  }

  /** What a refund result does to the order: success may complete it, failure releases the reservation. */
  function ResolveOrder(o: Order, r: Refund, success: bool): Order {
    if success then Reserve(o, o.refundedAmount, true)
    else o.(refundedAmount := Max0(o.refundedAmount - r.amount))
  }

  /** The critical section of an asynchronous refund result. */
  function ResolveRefund(s: State, outRefundNo: Label, success: bool): (s': State)
    ensures s'.now == s.now && s'.depositCounter == s.depositCounter && s'.inflight == s.inflight && s'.subs == s.subs && s'.reminders == s.reminders
    ensures SameIndexes(s, s')
  {
    if !AwaitsResult(s, outRefundNo) then s else
      var rid := s.byOutRefundNo[outRefundNo];
      var r := s.refunds[rid];
      s.(refunds := s.refunds[rid := r.(status := if success then RefundSuccess else RefundFailed)],
         orders := if r.orderId in s.orders
                   then s.orders[r.orderId := ResolveOrder(s.orders[r.orderId], r, success)]
                   else s.orders)
  }

  // ---- subscriptions near their end

  predicate DueForReminder(cfg: Config, s: State, sub: Subscription) {
    sub.active && s.now < sub.expiresAt <= s.now + cfg.reminderWindowMs && sub.notifiedAt == None
  }

  /** The index entry for a user after storing one of the user's subscriptions. */
  function IndexAfter(active: map<UserId, SubId>, sub: Subscription): map<UserId, SubId> {
    if sub.active then active[sub.userId := sub.id]
    else if sub.userId in active && active[sub.userId] == sub.id then active - {sub.userId}
    else active
  }

  function StoreSub(s: State, sub: Subscription): (s': State)
    ensures s'.now == s.now && s'.depositCounter == s.depositCounter && s'.inflight == s.inflight && s'.refunds == s.refunds && s'.reminders == s.reminders
    ensures SameIndexes(s, s')
  {
    s.(subs := s.subs[sub.id := sub], activeByUser := IndexAfter(s.activeByUser, sub))
  }

  /** Sends a reminder if one is due, and remembers that it was sent. */
  function Remind(cfg: Config, s: State, sid: SubId): (s': State)
    ensures s'.now == s.now && s'.depositCounter == s.depositCounter && s'.inflight == s.inflight && s'.refunds == s.refunds
    ensures SameIndexes(s, s')
  {
    if sid in s.subs && DueForReminder(cfg, s, s.subs[sid])
    then StoreSub(s, s.subs[sid].(notifiedAt := Some(s.now)))
         .(reminders := s.reminders + [Reminder(sid, s.subs[sid].expiresAt)])
    else s
  }

  function Deactivate(s: State, sid: SubId): (s': State)
    ensures s'.now == s.now && s'.depositCounter == s.depositCounter && s'.inflight == s.inflight && s'.refunds == s.refunds && s'.reminders == s.reminders
    ensures SameIndexes(s, s')
  {
    if sid in s.subs && s.subs[sid].active && s.subs[sid].expiresAt <= s.now
    then StoreSub(s, s.subs[sid].(active := false))
    else s
  }

  // ---- dedupe retention

  /** The marks that are no older than the cutoff. */
  function Recent(seen: map<EventKey, Time>, cutoff: Time): map<EventKey, Time> {
    map k | k in seen && seen[k] >= cutoff :: seen[k]
  }

  function SweepSeen(cfg: Config, s: State): (s': State)
    ensures s'.(seen := s.seen) == s
  {
    s.(seen := Recent(s.seen, s.now - cfg.retentionMs))
  }

  // ---- runs

  type Chain = map<TxId, Transfer>

  /** The chain shows a transfer that the provider matches to the order. */
  ghost predicate OnChain(cfg: Config, chain: Chain, o: Order, txId: TxId, now: Time) {
    txId in chain && chain[txId].timestamp <= now &&
    if cfg.perOrderAddresses then o.depositAddress.Some? && MatchesOwn(o, chain[txId], o.depositAddress.value)
    else MatchesShared(o, chain[txId], cfg.receiving)
  }

  datatype Event =
    | Tick(to: Time)
    | CreateOrder(req: OrderRequest, id: OrderId, outTradeNo: Label, due: nat, accepted: bool)
    | AddressNotDerived
    | CallbackSeen(m: Method, eventId: Label, outTradeNo: Label, txId: TxId, amount: int)
    | PollHit(orderId: OrderId, txId: TxId, amount: int)
    | PaymentDelivered(p: Payment, newSub: SubId)
    | PaymentLost(p: Payment)
    | OrderExpired(id: OrderId)
    | RefundIssued(rreq: RefundRequest, rid: RefundId, answer: RefundStatus)
    | RefundCallbackSeen(m: Method, eventId: Label)
    | RefundResolved(outRefundNo: Label, success: bool)
    | ReminderPass(sid: SubId)
    | ExpiryPass(sid: SubId)
    | SeenSwept

  /** The payment a callback announces, if it names a known order. */
  function CallbackPayment(s: State, e: Event): Option<Payment>
    requires e.CallbackSeen?
  {
    if e.outTradeNo in s.byOutTradeNo
    then Some(Payment(s.byOutTradeNo[e.outTradeNo], e.m, e.txId, e.amount)) else None
  }

  function PollPayment(s: State, e: Event): Payment
    requires e.PollHit? && e.orderId in s.orders
  {
    Payment(e.orderId, s.orders[e.orderId].payMethod, e.txId, e.amount)
  }

  /** When a step can happen.  USDT has no callbacks, and a poll of it reports what the chain shows. */
  ghost predicate Enabled(cfg: Config, chain: Chain, s: State, e: Event) {
    match e
    case Tick(to) => to >= s.now
    case CreateOrder(req, id, _, amount, _) => CanCreate(cfg, s, req, id, amount)
    case CallbackSeen(m, _, _, _, _) => m != Usdt
    case PollHit(id, txId, amount) =>
      id in s.orders && (s.orders[id].payMethod == Usdt ==>
        OnChain(cfg, chain, s.orders[id], txId, s.now) && amount == chain[txId].value)
    case PaymentDelivered(p, newSub) => p in s.inflight && newSub !in s.subs
    case RefundIssued(_, rid, _) => rid !in s.refunds
    case _ => true
  }

  function Apply(cfg: Config, s: State, e: Event): State {
    match e
    case Tick(to) => s.(now := to)
    case CreateOrder(req, id, no, amount, accepted) => Create(cfg, s, req, id, no, amount, accepted)
    case AddressNotDerived => s.(depositCounter := s.depositCounter + 1)
    case CallbackSeen(m, eventId, _, _, _) => Mark(s, CallbackKey(m, eventId), CallbackPayment(s, e))
    case PollHit(id, txId, amount) =>
      if id in s.orders then Mark(s, TxnKey(s.orders[id].payMethod, txId), Some(PollPayment(s, e))) else s
    case PaymentDelivered(p, newSub) => Deliver(cfg, s, p, newSub)
    case PaymentLost(p) => s.(inflight := s.inflight - {p})
    case OrderExpired(id) => Expire(s, id)
    case RefundIssued(req, rid, answer) => IssueRefund(cfg, s, req, rid, answer)
    case RefundCallbackSeen(m, eventId) => Mark(s, RefundKey(m, eventId), None)
    case RefundResolved(no, success) => ResolveRefund(s, no, success)
    case ReminderPass(sid) => Remind(cfg, s, sid)
    case ExpiryPass(sid) => Deactivate(s, sid)
    case SeenSwept => SweepSeen(cfg, s)
  }

  /** A run from the empty store: any enabled steps, in any order, of any length. */
  ghost predicate IsRun(cfg: Config, chain: Chain, events: seq<Event>, run: seq<State>) {
    && |run| == |events| + 1 && run[0] == Initial(run[0].now)
    && forall i :: 0 <= i < |events| ==>
         Enabled(cfg, chain, run[i], events[i]) && run[i + 1] == Apply(cfg, run[i], events[i])
  }

  // ---- what steps do to orders

  /** Only order `id` differs; it was pending and is now paid for. */
  ghost predicate OnePaid(orders: map<OrderId, Order>, orders': map<OrderId, Order>, id: OrderId) {
    && id in orders && orders[id].status == Pending && id in orders' && orders' == orders[id := orders'[id]]
    && (orders'[id].status == Paid || orders'[id].status == Fulfilled)
  }

  lemma OnePaidIs(orders: map<OrderId, Order>, id: OrderId, o: Order)
    requires id in orders && orders[id].status == Pending && (o.status == Paid || o.status == Fulfilled)
    ensures OnePaid(orders, orders[id := o], id)
  {
  }

  /** A payment changes at most its order. */
  lemma DeliverOrders(cfg: Config, s: State, p: Payment, newSub: SubId)
    ensures Deliver(cfg, s, p, newSub).refunds == s.refunds
    ensures Deliver(cfg, s, p, newSub).orders == s.orders || OnePaid(s.orders, Deliver(cfg, s, p, newSub).orders, p.orderId)
  {
    hide Grant, OnePaid;
    if p.orderId in s.orders && Accepts(s.orders[p.orderId], p) {
      var paid := PaidOrder(s.orders[p.orderId], p, s.now);
      OnePaidIs(s.orders, p.orderId, paid);
      OnePaidIs(s.orders, p.orderId, paid.(status := Fulfilled));
    }
  }

  lemma OtherSteps(cfg: Config, s: State, e: Event)
    requires !e.CreateOrder? && !e.PaymentDelivered? && !e.OrderExpired? && !e.RefundIssued? && !e.RefundResolved?
    ensures Apply(cfg, s, e).orders == s.orders && Apply(cfg, s, e).refunds == s.refunds
  {
    hide Create, Deliver, Expire, IssueRefund, ResolveRefund;
  }
}
