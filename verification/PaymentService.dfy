/**
 Orders and their settlement: the service methods as they change the stores.  A call
 that nothing interrupts takes exactly the named steps of the protocol, one after
 the other.
 */
module PaymentService {
  import opened Wrappers
  import opened Domain
  import opened Finite
  import opened Protocol
  import opened OrderBook
  import opened Stores
  import UsdtTron
  import SweepService

  class SubscriptionService {
    const cfg: Config
    const db: Database

    constructor (cfg: Config, db: Database)
      ensures this.cfg == cfg && this.db == db
    {
      this.cfg, this.db := cfg, db;
    }

    /** The order has its access already. */
    ghost predicate AlreadyFulfilled(o: Order)
      reads db.subs
    {
      o.status == Fulfilled && o.userId in db.subs.activeByUser && db.subs.activeByUser[o.userId] in db.subs.byId
    }

    /** Grants the access an order paid for and moves the order to FULFILLED. */
    method FulfillOrder(o: Order, newSub: SubId, now: Time) returns (r: Result<Order>)
      requires db.Valid() && newSub !in db.subs.byId
      modifies db.subs
      ensures db.Valid()
      ensures old(AlreadyFulfilled(o)) ==> r == Ok(o)
      ensures o.status == Fulfilled && o.userId in old(db.subs.activeByUser) ==>
                r == Ok(o) && db.subs.byId == old(db.subs.byId) && db.subs.activeByUser == old(db.subs.activeByUser)
      ensures o.status == Paid && o.planId in cfg.plans ==>
                r == Ok(o.(status := Fulfilled)) && o.userId in db.subs.activeByUser && db.subs.activeByUser[o.userId] in db.subs.byId &&
                o.id in db.subs.byId[db.subs.activeByUser[o.userId]].orderIds
      ensures !old(AlreadyFulfilled(o)) && o.planId !in cfg.plans ==> r == Err(NotFound)
      ensures old(AlreadyFulfilled(o)) || o.planId !in cfg.plans ==>
                db.subs.byId == old(db.subs.byId) && db.subs.activeByUser == old(db.subs.activeByUser)
      ensures !old(AlreadyFulfilled(o)) && o.planId in cfg.plans ==>
                var sub := Grant(cfg, old(db.State(now)), o, newSub);
                db.subs.byId == old(db.subs.byId)[sub.id := sub] &&
                db.subs.activeByUser == old(db.subs.activeByUser)[o.userId := sub.id]
      ensures !old(AlreadyFulfilled(o)) && o.planId in cfg.plans ==>
                r == if o.status == Paid || o.status == Fulfilled then Ok(o.(status := Fulfilled)) else Err(InvalidState)
    {
      if o.status == Fulfilled {
        var current := db.subs.FindActiveByUser(o.userId);
        if current.Some? {
          return Ok(o);
        }
      }
      if o.planId !in cfg.plans {
        return Err(NotFound);
      }
      var addMs := cfg.plans[o.planId].durationMs;
      var existing := db.subs.FindActiveByUser(o.userId);
      if existing.Some? && existing.value.expiresAt > now {
        var sub := existing.value;
        sub := sub.(expiresAt := sub.expiresAt + addMs, orderIds := sub.orderIds + [o.id], active := true, notifiedAt := None);
        db.subs.Update(sub);
      } else {
        db.subs.Create(Subscription(newSub, o.userId, now, now + addMs, true, [o.id], None));
      }
      assert Fulfilled in Transitions(Paid);
      var status := AssertTransition(o.status, Fulfilled);
      if status.Err? {
        return Err(status.error);
      }
      return Ok(o.(status := status.value));
    }
  }

  /** The chain's transfers that the provider lists. */
  ghost predicate Lists(chain: Chain, transfers: seq<Transfer>, now: Time) {
    forall t :: t in transfers ==> t.txId in chain && chain[t.txId] == t && t.timestamp <= now
  }

  /** Looks for the transfer that pays an order; a find is what the protocol takes a poll to report. */
  method QueryPayment(cfg: Config, ghost chain: Chain, o: Order, transfers: seq<Transfer>, ghost now: Time) returns (r: Option<Transfer>)
    requires Lists(chain, transfers, now)
    ensures r.Some? ==> r.value in transfers && OnChain(cfg, chain, o, r.value.txId, now)
    ensures r.None? ==> forall t :: t in transfers ==> !OnChain(cfg, chain, o, t.txId, now)
  {
    if !cfg.perOrderAddresses {
      r := UsdtTron.MatchTransfer(o, transfers, cfg.receiving, {});
    } else if o.depositAddress.Some? {
      r := UsdtTron.MatchByAddress(o, transfers, o.depositAddress.value, {});
    } else {
      r := None;
    }
  }

  /** What is granted depends on the order's buyer and plan and on the subscriptions. */
  lemma GrantSame(cfg: Config, s: State, s': State, o: Order, o': Order, newSub: SubId)
    requires s'.subs == s.subs && s'.activeByUser == s.activeByUser && s'.now == s.now
    requires o'.id == o.id && o'.userId == o.userId && o'.planId == o.planId
    ensures o.planId in cfg.plans ==> Grant(cfg, s', o', newSub) == Grant(cfg, s, o, newSub)
  {
  }

  lemma DeliverKeepsMarks(cfg: Config, s: State, p: Payment, newSub: SubId)
    ensures Deliver(cfg, s, p, newSub).seen == s.seen
  {
    hide Grant, Accepts;
  }

  lemma AcceptsIff(o: Order, p: Payment)
    ensures Accepts(o, p) <==> Suffices(o, p)
  {
  }

  /** A verified callback as its provider reports it. */
  datatype Callback = Callback(paid: bool, eventId: Label, outTradeNo: Label, txId: TxId, amount: int)

  class PaymentService {
    const cfg: Config
    const db: Database
    const subscriptions: SubscriptionService
    const allocator: SweepService.AddressAllocator

    constructor (cfg: Config, db: Database, subscriptions: SubscriptionService, allocator: SweepService.AddressAllocator)
      requires subscriptions.cfg == cfg && subscriptions.db == db
      requires allocator.deposits == db.deposits && allocator.policy.hdStartIndex == cfg.hdStartIndex
      ensures this.cfg == cfg && this.db == db && Wired()
    {
      this.cfg, this.db, this.subscriptions, this.allocator := cfg, db, subscriptions, allocator;
    }

    ghost predicate Wired() {
      subscriptions.cfg == cfg && subscriptions.db == db &&
      allocator.deposits == db.deposits && allocator.policy.hdStartIndex == cfg.hdStartIndex
    }

    // ---- creating orders

    /** Every address given out so far comes from an index below the counter. */
    ghost predicate CounterAhead()
      reads db.deposits
    {
      forall x :: x in db.deposits.byAddress ==> x.Derived? && x.index <= cfg.hdStartIndex + db.deposits.counter
    }

    /** The amount due for a plan; there is none when every unique amount is taken. */
    method ResolveAmount(m: Method, plan: Plan) returns (r: Result<nat>)
      ensures r.Ok? ==> IsAmountDue(cfg, db.orders.byId, plan, m, r.value)
      ensures r.Err? ==> forall a :: !IsAmountDue(cfg, db.orders.byId, plan, m, a)
      ensures r.Err? ==> r.error == ProviderFailure
    {
      if m != Usdt {
        return Ok(plan.priceCnyFen);
      }
      if cfg.perOrderAddresses {
        return Ok(plan.priceUsdtMicro);
      }
      var taken := db.orders.PendingUsdtAmounts();
      var amount := UsdtTron.AllocateUniqueAmount(plan.priceUsdtMicro, taken, cfg.maxDelta);
      if amount.Err? {
        return Err(ProviderFailure);
      }
      return Ok(amount.value);
    }

    /** The order gets a deposit address of its own when its method asks for one; deriving it may throw. */
    method AssignAddress(m: Method, id: OrderId, derived: bool, now: Time) returns (r: Result<Option<Address>>)
      requires Wired() && CounterAhead() && id !in db.deposits.byOrderId
      modifies db.deposits
      ensures CounterAhead()
      ensures db.deposits.counter == old(db.deposits.counter) + if UsesDepositAddress(cfg, m) then 1 else 0
      ensures r.Err? <==> UsesDepositAddress(cfg, m) && !derived
      ensures r.Err? ==> r.error == ProviderFailure && db.deposits.byOrderId == old(db.deposits.byOrderId)
      ensures r.Ok? ==> r.value == if UsesDepositAddress(cfg, m) then Some(Derived(cfg.hdStartIndex + db.deposits.counter)) else None
      ensures r.Ok? && r.value.Some? ==> id in db.deposits.byOrderId && r.value.value == db.deposits.byOrderId[id].address
    {
      if m != Usdt || !cfg.perOrderAddresses {
        return Ok(None);
      }
      ghost var next := Derived(cfg.hdStartIndex + db.deposits.counter + 1);
      assert next !in db.deposits.byAddress;
      var given := allocator.Allocate(id, derived, now);
      if given.Err? {
        return Err(given.error);
      }
      return Ok(Some(given.value.address));
    }

    /** The order needs a deposit address that cannot be derived. */
    ghost predicate Underivable(req: OrderRequest, derived: bool) {
      UsesDepositAddress(cfg, req.payMethod) && !derived
    }

    /** That can only be an order for USDT in the mode with an address per order. */
    lemma UnderivableIff(req: OrderRequest, derived: bool)
      ensures Underivable(req, derived) <==> IsUsdt(req.payMethod) && cfg.perOrderAddresses && !derived
    {
    }

    /**
     Creates an order and its payment intent; `derived` says whether its deposit address
     can be derived, and `accepted` whether the provider takes it.  A repeated
     idempotency key finds the earlier order.
     */
    method CreateOrder(req: OrderRequest, id: OrderId, outTradeNo: Label, derived: bool, accepted: bool, now: Time)
      returns (r: Result<Order>, ghost due: Option<nat>)
      requires Wired() && db.Valid() && CounterAhead() && id !in db.orders.byId && id !in db.deposits.byOrderId
      modifies db.orders, db.deposits
      ensures db.Valid() && CounterAhead()
      ensures var s := old(db.State(now)); due.Some? ==>
                && CanCreate(cfg, s, req, id, due.value) && (forall a: nat :: CanCreate(cfg, s, req, id, a) ==> a == due.value)
                && db.State(now) == (if Underivable(req, derived) then Apply(cfg, s, AddressNotDerived)
                                     else Apply(cfg, s, Event.CreateOrder(req, id, outTradeNo, due.value, accepted)))
                && (r.Ok? <==> !Underivable(req, derived) && accepted && outTradeNo !in s.byOutTradeNo)
      ensures due.Some? && r.Ok? ==> id in db.orders.byId && r.value == db.orders.byId[id]
      ensures due.Some? && r.Err? ==>
                r.error == if !Underivable(req, derived) && outTradeNo in old(db.orders.byOutTradeNo) then Duplicate else ProviderFailure
      ensures due.None? && r.Err? ==>
                r.error == if req.planId !in cfg.plans then NotFound else if req.payMethod !in cfg.methods then InvalidInput else ProviderFailure
      ensures due.None? ==>
                && db.State(now) == old(db.State(now)) && (r.Ok? <==> req.key.Some? && req.key.value in old(db.orders.byIdem))
                && (r.Ok? ==> db.orders.byIdem[req.key.value] in db.orders.byId && r.value == db.orders.byId[db.orders.byIdem[req.key.value]])
                && (r.Err? ==> forall a: nat :: !CanCreate(cfg, old(db.State(now)), req, id, a))
    {
      hide OrderRepository.Valid, SubscriptionRepository.Valid, RefundRepository.Valid, IsAmountDue, Create;
      due := None;
      ghost var before := db.State(now);
      if req.key.Some? {
        var existing := db.orders.FindByIdempotencyKey(req.key.value);
        NoDangling(db.orders);
        if existing.Some? {
          return Ok(existing.value), None;
        }
      }
      if req.planId !in cfg.plans {
        return Err(NotFound), None;
      }
      if req.payMethod !in cfg.methods {
        return Err(InvalidInput), None;
      }
      var amount := ResolveAmount(req.payMethod, cfg.plans[req.planId]);
      if amount.Err? {
        return Err(amount.error), None;
      }
      due := Some(amount.value);
      forall a: nat | CanCreate(cfg, before, req, id, a)
        ensures a == amount.value
      {
        AmountDueUnique(cfg, before.orders, cfg.plans[req.planId], req.payMethod, a, amount.value);
      }
      r := PlaceOrder(req, id, outTradeNo, amount.value, derived, accepted, now);
    }

    method PlaceOrder(req: OrderRequest, id: OrderId, outTradeNo: Label, amount: nat, derived: bool, accepted: bool, now: Time)
      returns (r: Result<Order>)
      requires Wired() && db.Valid() && CounterAhead() && id !in db.deposits.byOrderId
      modifies db.orders, db.deposits
      ensures db.Valid() && CounterAhead()
      ensures db.State(now) == if Underivable(req, derived) then Apply(cfg, old(db.State(now)), AddressNotDerived)
                               else Create(cfg, old(db.State(now)), req, id, outTradeNo, amount, accepted)
      ensures r.Ok? <==> !Underivable(req, derived) && accepted && outTradeNo !in old(db.orders.byOutTradeNo)
      ensures r.Ok? ==> id in db.orders.byId && r.value == db.orders.byId[id]
      ensures r.Err? ==>
                r.error == if !Underivable(req, derived) && outTradeNo in old(db.orders.byOutTradeNo) then Duplicate else ProviderFailure
    {
      hide OrderRepository.Valid, SubscriptionRepository.Valid, RefundRepository.Valid, Create, Apply;
      ghost var before := db.State(now);
      NotDerivedIs(cfg, before);
      var deposit := AssignAddress(req.payMethod, id, derived, now);
      if deposit.Err? {
        return Err(deposit.error);
      }
      var order := Order(id, outTradeNo, req.userId, req.planId, req.payMethod, amount, Pending, None,
                         now, now + cfg.ttlMs, None, 0, deposit.value);
      r := StoreOrder(order, req.key, accepted);
      CreateIs(cfg, before, db.State(now), req, order, accepted);
    }

    /** Stores an order and asks the provider for a payment; if that throws, the order has failed. */
    method StoreOrder(order: Order, key: Option<Label>, accepted: bool) returns (r: Result<Order>)
      requires order.status == Pending && db.orders.Valid()
      modifies db.orders
      ensures db.orders.Valid()
      ensures r.Ok? <==> accepted && order.outTradeNo !in old(db.orders.byOutTradeNo)
      ensures r.Ok? ==> r.value == order
      ensures r.Err? ==> r.error == if order.outTradeNo in old(db.orders.byOutTradeNo) then Duplicate else ProviderFailure
      ensures order.outTradeNo in old(db.orders.byOutTradeNo) ==>
                db.orders.byId == old(db.orders.byId) && db.orders.byOutTradeNo == old(db.orders.byOutTradeNo) &&
                db.orders.byIdem == old(db.orders.byIdem)
      ensures order.outTradeNo !in old(db.orders.byOutTradeNo) ==>
                && db.orders.byId == old(db.orders.byId)[order.id := order.(status := if accepted then Pending else Failed)]
                && db.orders.byOutTradeNo == old(db.orders.byOutTradeNo)[order.outTradeNo := order.id]
                && db.orders.byIdem == if key.Some? then old(db.orders.byIdem)[key.value := order.id] else old(db.orders.byIdem)
    {
      hide OrderRepository.Valid;
      r := db.orders.Create(order, key);
      if r.Err? {
        return;
      }
      if !accepted {
        assert Failed in Transitions(Pending);
        var status := AssertTransition(order.status, Failed);
        r := db.orders.Update(order.(status := status.value));
        return Err(ProviderFailure);
      }
      r := db.orders.Update(order);
    }

    // ---- settlement

    /** Why the order does not accept the payment, if it does not. */
    function Refusal(o: Order, p: Payment): Result<Order> {
      if o.status == Paid || o.status == Fulfilled then Ok(o)
      else if IsTerminal(o.status) then Err(ProviderFailure)
      else Err(AmountMismatch)
    }

    /** What the caller of a settlement gets, from the stored orders before and after it. */
    ghost function Answer(before: map<OrderId, Order>, after: map<OrderId, Order>, p: Payment): Result<Order> {
      if p.orderId !in before || p.orderId !in after then Err(NotFound)
      else if !Accepts(before[p.orderId], p) then Refusal(before[p.orderId], p)
      else if before[p.orderId].planId in cfg.plans then Ok(after[p.orderId]) else Err(NotFound)
    }

    /**
     A payment succeeds for its caller if its order is settled by it or was before; a
     closed order cannot take it, and one that is not enough is a mismatch.
     */
    lemma AnswerSays(before: map<OrderId, Order>, after: map<OrderId, Order>, p: Payment)
      requires p.orderId in before && p.orderId in after
      ensures var o := before[p.orderId];
              Answer(before, after, p) ==
              match o.status
              case Pending => if !Suffices(o, p) then Err(AmountMismatch)
                              else if o.planId in cfg.plans then Ok(after[p.orderId]) else Err(NotFound)
              case Paid => Ok(o)
              case Fulfilled => Ok(o)
              case Expired => Err(ProviderFailure)
              case Cancelled => Err(ProviderFailure)
              case Refunded => Err(ProviderFailure)
              case Failed => Err(ProviderFailure)
    {
      TransitionsMoveForward(before[p.orderId].status, Paid);
    }

    /** The critical section of a payment. */
    method ApplyPayment(p: Payment, newSub: SubId, now: Time) returns (r: Result<Order>)
      requires Wired() && db.Valid() && newSub !in db.subs.byId
      modifies db.orders, db.subs
      ensures db.Valid()
      ensures db.State(now) == Protocol.ApplyPayment(cfg, old(db.State(now)), p, newSub)
      ensures r == Answer(old(db.orders.byId), db.orders.byId, p)
      ensures old(db.orders.byId).Keys <= db.orders.byId.Keys
    {
      hide OrderRepository.Valid, SubscriptionRepository.Valid, RefundRepository.Valid, Grant;
      var found := db.orders.FindById(p.orderId);
      if found.None? {
        return Err(NotFound);
      }
      var o := found.value;
      if o.status == Paid || o.status == Fulfilled {
        return Ok(o);
      }
      if IsTerminal(o.status) {
        return Err(ProviderFailure);
      }
      assert o.status == Pending by {
        TransitionsMoveForward(o.status, Paid);
      }
      if CurrencyOf(p.payMethod) != CurrencyOf(o.payMethod) || p.amount < o.amount {
        return Err(AmountMismatch);
      }
      assert Paid in Transitions(Pending);
      var status := AssertTransition(o.status, Paid);
      var paid := o.(status := status.value, providerTxnId := Some(p.txId), paidAt := Some(now));
      ghost var before := db.State(now);
      var stored := db.orders.Update(paid);
      GrantSame(cfg, before, db.State(now), o, paid, newSub);
      var fulfilled := subscriptions.FulfillOrder(paid, newSub, now);
      if fulfilled.Err? {
        return Err(fulfilled.error);
      }
      r := db.orders.Update(fulfilled.value);
    }

    /** Takes a marked payment to the critical section of its order; says whether a callback would be acknowledged. */
    method Settle(p: Payment, newSub: SubId, now: Time) returns (r: Result<Order>, ack: bool)
      requires Wired() && db.Valid() && newSub !in db.subs.byId
      modifies db`inflight, db.orders, db.subs
      ensures db.Valid()
      ensures db.State(now) == Deliver(cfg, old(db.State(now)).(inflight := old(db.inflight) + {p}), p, newSub)
      ensures r == Answer(old(db.orders.byId), db.orders.byId, p) && old(db.orders.byId).Keys <= db.orders.byId.Keys
      ensures p.orderId in old(db.orders.byId) ==>
                var o := old(db.orders.byId)[p.orderId];
                ack == !(IsTerminal(o.status) || (Accepts(o, p) && o.planId !in cfg.plans))
    {
      hide OrderRepository.Valid, SubscriptionRepository.Valid, RefundRepository.Valid, Protocol.ApplyPayment;
      db.inflight := db.inflight + {p};
      r := ApplyPayment(p, newSub, now);
      db.inflight := db.inflight - {p};
      ack := r.Ok? || r.error == AmountMismatch;
      TransitionsMoveForward(Pending, Paid);
      TransitionsMoveForward(Paid, Paid);
      TransitionsMoveForward(Fulfilled, Paid);
    }

    /** A callback that nothing interrupts: the mark, and then the payment if the event is new and names an order. */
    ghost function AfterCallback(s: State, m: Method, cb: Callback, newSub: SubId): State {
      var e := CallbackSeen(m, cb.eventId, cb.outTradeNo, cb.txId, cb.amount);
      var p := CallbackPayment(s, e);
      if CallbackKey(m, cb.eventId) in s.seen || p.None? then Apply(cfg, s, e)
      else Apply(cfg, Apply(cfg, s, e), PaymentDelivered(p.value, newSub))
    }

    /** In terms of the mark and the critical section. */
    lemma AfterCallbackIs(s: State, m: Method, cb: Callback, newSub: SubId)
      ensures var p := CallbackPayment(s, CallbackSeen(m, cb.eventId, cb.outTradeNo, cb.txId, cb.amount));
              var marked := Mark(s, CallbackKey(m, cb.eventId), p);
              AfterCallback(s, m, cb, newSub) ==
              if CallbackKey(m, cb.eventId) in s.seen || p.None? then marked else Deliver(cfg, marked, p.value, newSub)
    {
      hide Mark, Deliver;
    }

    /**
     What a callback comes to: a replay changes nothing; a new one settles the order of
     its trade number exactly if that is pending and the payment suffices.
     */
    lemma CallbackOutcome(s: State, m: Method, cb: Callback, newSub: SubId, id: OrderId)
      requires BookOk(cfg, s) && id in s.orders
      ensures CallbackKey(m, cb.eventId) in s.seen ==> AfterCallback(s, m, cb, newSub) == s
      ensures CallbackKey(m, cb.eventId) !in s.seen ==>
                var s' := AfterCallback(s, m, cb, newSub); var o := s.orders[id];
                && CallbackKey(m, cb.eventId) in s'.seen && id in s'.orders
                && s'.orders[id] == if o.outTradeNo == cb.outTradeNo && Suffices(o, Payment(id, m, cb.txId, cb.amount))
                                    then o.(status := if o.planId in cfg.plans then Fulfilled else Paid,
                                            providerTxnId := Some(cb.txId), paidAt := Some(s.now))
                                    else o
    {
      hide AfterCallback, Deliver, Suffices, Priced, Apply;
      AfterCallbackIs(s, m, cb, newSub);
      var p := CallbackPayment(s, CallbackSeen(m, cb.eventId, cb.outTradeNo, cb.txId, cb.amount));
      var marked := Mark(s, CallbackKey(m, cb.eventId), p);
      if p.Some? {
        PaymentOutcome(cfg, marked, p.value, newSub);
        DeliverKeepsMarks(cfg, marked, p.value, newSub);
      }
    }

    /** What a poll with a report comes to. */
    lemma PollOutcome(s: State, id: OrderId, txId: TxId, amount: int, newSub: SubId)
      requires id in s.orders
      ensures TxnKey(s.orders[id].payMethod, txId) in s.seen ==> AfterPoll(s, id, txId, amount, newSub) == s
      ensures TxnKey(s.orders[id].payMethod, txId) !in s.seen ==>
                var s' := AfterPoll(s, id, txId, amount, newSub); var o := s.orders[id];
                && TxnKey(o.payMethod, txId) in s'.seen
                && s'.orders == if o.status == Pending && o.amount <= amount
                                then s.orders[id := o.(status := if o.planId in cfg.plans then Fulfilled else Paid,
                                                       providerTxnId := Some(txId), paidAt := Some(s.now))]
                                else s.orders
    {
      hide AfterPoll, Deliver, Apply;
      AfterPollIs(s, id, txId, amount, newSub);
      var p := PollPayment(s, PollHit(id, txId, amount));
      var marked := Mark(s, TxnKey(p.payMethod, txId), Some(p));
      PaymentOutcome(cfg, marked, p, newSub);
      DeliverKeepsMarks(cfg, marked, p, newSub);
    }

    /** The provider should send the callback again: the order is unknown, or can no longer be paid or fulfilled. */
    ghost predicate AsksAgain(s: State, m: Method, cb: Callback) {
      && cb.paid && CallbackKey(m, cb.eventId) !in s.seen
      && (cb.outTradeNo !in s.byOutTradeNo || s.byOutTradeNo[cb.outTradeNo] !in s.orders ||
          var o := s.orders[s.byOutTradeNo[cb.outTradeNo]];
          IsTerminal(o.status) ||
          (Accepts(o, Payment(o.id, m, cb.txId, cb.amount)) && o.planId !in cfg.plans))
    }

    /**
     A new report of payment is asked for again for an unknown or closed order, or one
     whose plan is gone; for an underpaid one it is not, and neither is any old report.
     */
    lemma AsksAgainIff(s: State, m: Method, cb: Callback)
      requires BookOk(cfg, s)
      ensures AsksAgain(s, m, cb) <==>
              cb.paid && CallbackKey(m, cb.eventId) !in s.seen &&
              forall id :: id in s.orders && s.orders[id].outTradeNo == cb.outTradeNo ==>
                && s.orders[id].status !in {Paid, Fulfilled}
                && (s.orders[id].status == Pending ==>
                      Suffices(s.orders[id], Payment(id, m, cb.txId, cb.amount)) && s.orders[id].planId !in cfg.plans)
    {
      hide Priced, Suffices;
      if cb.outTradeNo in s.byOutTradeNo {
        var id := s.byOutTradeNo[cb.outTradeNo];
        assert id in s.orders && s.orders[id].outTradeNo == cb.outTradeNo && s.orders[id].id == id;
        AcceptsIff(s.orders[id], Payment(id, m, cb.txId, cb.amount));
        TransitionsMoveForward(s.orders[id].status, Paid);
      }
    }

    /** Handles a callback; `cb` is missing if its signature is bad.  The result is the acknowledgement. */
    method HandleCallback(m: Method, cb: Option<Callback>, newSub: SubId, now: Time) returns (r: Result<bool>)
      requires Wired() && db.Valid() && newSub !in db.subs.byId
      modifies db`inflight, db.orders, db.subs, db.events
      ensures db.Valid()
      ensures r.Err? <==> m !in cfg.methods || cb.None?
      ensures r.Err? || !cb.value.paid ==> db.State(now) == old(db.State(now))
      ensures r.Ok? && cb.value.paid ==> db.State(now) == AfterCallback(old(db.State(now)), m, cb.value, newSub)
      ensures r.Ok? ==> r.value == !AsksAgain(old(db.State(now)), m, cb.value)
    {
      hide OrderRepository.Valid, SubscriptionRepository.Valid, RefundRepository.Valid, Protocol.ApplyPayment, IsTerminal, Accepts, Answer;
      if m !in cfg.methods {
        return Err(InvalidInput);
      }
      if cb.None? {
        return Err(ProviderFailure);
      }
      if !cb.value.paid {
        return Ok(true);
      }
      ghost var before := db.State(now);
      AfterCallbackIs(before, m, cb.value, newSub);
      hide AfterCallback, Apply, Deliver;
      var isNew := db.events.MarkIfNew(CallbackKey(m, cb.value.eventId), now);
      if !isNew {
        assert db.State(now) == before;
        return Ok(true);
      }
      var found := db.orders.FindByOutTradeNo(cb.value.outTradeNo);
      NoDangling(db.orders);
      if found.None? {
        return Ok(false);
      }
      var p := Payment(found.value.id, m, cb.value.txId, cb.value.amount);
      var applied, ack := Settle(p, newSub, now);
      return Ok(ack);
    }

    // ---- polling

    /** A poll that nothing interrupts. */
    ghost function AfterPoll(s: State, id: OrderId, txId: TxId, amount: int, newSub: SubId): State
      requires id in s.orders
    {
      var e := PollHit(id, txId, amount);
      if TxnKey(s.orders[id].payMethod, txId) in s.seen then Apply(cfg, s, e)
      else Apply(cfg, Apply(cfg, s, e), PaymentDelivered(PollPayment(s, e), newSub))
    }

    /** In terms of the mark and the critical section. */
    lemma AfterPollIs(s: State, id: OrderId, txId: TxId, amount: int, newSub: SubId)
      requires id in s.orders
      ensures var p := PollPayment(s, PollHit(id, txId, amount));
              var marked := Mark(s, TxnKey(p.payMethod, txId), Some(p));
              AfterPoll(s, id, txId, amount, newSub) ==
              if TxnKey(p.payMethod, txId) in s.seen then marked else Deliver(cfg, marked, p, newSub)
    {
      hide Mark, Deliver;
    }

    /** Asks the provider about a pending order; `query` is the transaction it reports, if any, with its amount. */
    method SyncOrder(id: OrderId, query: Option<TxId>, reported: Option<int>, newSub: SubId, now: Time) returns (r: Result<Order>)
      requires Wired() && db.Valid() && newSub !in db.subs.byId
      modifies db`inflight, db.orders, db.subs, db.events
      ensures db.Valid()
      ensures var s := old(db.State(now));
              if id !in s.orders then db.State(now) == s && r == Err(NotFound)
              else if s.orders[id].status != Pending then db.State(now) == s && r == Ok(s.orders[id])
              else if s.orders[id].payMethod !in cfg.methods then db.State(now) == s && r == Err(InvalidInput)
              else if query.None? then db.State(now) == s && r == Ok(s.orders[id])
              else
                var p := PollPayment(s, PollHit(id, query.value, if reported.Some? then reported.value else s.orders[id].amount));
                && db.State(now) == AfterPoll(s, id, query.value, p.amount, newSub)
                && r == if TxnKey(p.payMethod, query.value) in s.seen then Ok(s.orders[id]) else Answer(s.orders, db.orders.byId, p)
    {
      hide OrderRepository.Valid, SubscriptionRepository.Valid, RefundRepository.Valid, Protocol.ApplyPayment, IsTerminal, Accepts, Answer;
      var found := db.orders.FindById(id);
      if found.None? {
        return Err(NotFound);
      }
      var o := found.value;
      if o.status != Pending {
        return Ok(o);
      }
      if o.payMethod !in cfg.methods {
        return Err(InvalidInput);
      }
      if query.None? {
        return Ok(o);
      }
      ghost var before := db.State(now);
      AfterPollIs(before, id, query.value, if reported.Some? then reported.value else o.amount, newSub);
      hide AfterPoll, Apply, Deliver;
      var isNew := db.events.MarkIfNew(TxnKey(o.payMethod, query.value), now);
      if !isNew {
        assert db.State(now) == before;
        return Ok(o);
      }
      var p := Payment(id, o.payMethod, query.value, if reported.Some? then reported.value else o.amount);
      var ack;
      r, ack := Settle(p, newSub, now);
    }

    /**
     Polls a USDT order: the provider lists transfers of the chain and reports the
     first that pays it.  What follows is a step that the protocol allows.
     */
    method SyncUsdtOrder(id: OrderId, ghost chain: Chain, transfers: seq<Transfer>, newSub: SubId, now: Time)
      returns (r: Result<Order>, ghost paid: Option<TxId>)
      requires Wired() && db.Valid() && newSub !in db.subs.byId && Lists(chain, transfers, now)
      requires id in db.orders.byId ==> db.orders.byId[id].payMethod == Usdt
      modifies db`inflight, db.orders, db.subs, db.events
      ensures db.Valid()
      ensures var s := old(db.State(now)); paid.None? ==>
                && db.State(now) == s
                && if id !in s.orders then r == Err(NotFound)
                   else if s.orders[id].status == Pending && Usdt !in cfg.methods then r == Err(InvalidInput)
                   else
                     && r == Ok(s.orders[id])
                     && (s.orders[id].status == Pending ==> forall t :: t in transfers ==> !OnChain(cfg, chain, s.orders[id], t.txId, now))
      ensures var s := old(db.State(now)); paid.Some? ==>
                && id in s.orders && s.orders[id].status == Pending && Usdt in cfg.methods && paid.value in chain
                && Enabled(cfg, chain, s, PollHit(id, paid.value, chain[paid.value].value))
                && db.State(now) == AfterPoll(s, id, paid.value, chain[paid.value].value, newSub)
    {
      hide OrderRepository.Valid, SubscriptionRepository.Valid, RefundRepository.Valid, AfterPoll, Answer, OnChain;
      paid := None;
      var found := db.orders.FindById(id);
      if found.None? || found.value.status != Pending || Usdt !in cfg.methods {
        r := SyncOrder(id, None, None, newSub, now);
        return;
      }
      var transfer := QueryPayment(cfg, chain, found.value, transfers, now);
      if transfer.None? {
        r := SyncOrder(id, None, None, newSub, now);
        return;
      }
      paid := Some(transfer.value.txId);
      r := SyncOrder(id, Some(transfer.value.txId), Some(transfer.value.value), newSub, now);
    }

    // ---- expiry

    /** Expires the pending orders whose window has elapsed, each in its own critical section, and counts them. */
    method ExpireStaleOrders(now: Time) returns (count: nat, ghost ids: seq<OrderId>)
      requires db.Valid()
      modifies db.orders
      ensures db.Valid()
      ensures Elements(ids) == old(db.orders.byId).Keys && db.State(now) == ExpireEach(old(db.State(now)), ids)
      ensures db.orders.byId == WithStaleExpired(old(db.orders.byId), now) && count == |Stale(old(db.orders.byId), now)|
    {
      hide Untouched, ExpireEach, StaleCount, Expire, Distinct, Elements, Stale, WithStaleExpired;
      hide OrderRepository.Valid, SubscriptionRepository.Valid, RefundRepository.Valid;
      ghost var before := db.State(now);
      var all := db.orders.byId;
      var list := Enumerate(all.Keys);
      ids := list;
      count := 0;
      Prefixes(before, all, list, now);
      for i := 0 to |list|
        invariant db.Valid() && db.State(now) == ExpireEach(before, list[..i])
        invariant Untouched(db.orders.byId, all, list[i..])
        invariant count == StaleCount(all, list[..i], now)
      {
        ExpireNext(before, db.State(now), all, list, i, now);
        if all[list[i]].status == Pending && all[list[i]].expiresAt <= now {
          ExpireOne(list[i], now);
          count := count + 1;
        }
      }
      StaleCountIs(all, list, now);
      ExpireEachIsPass(before, list);
    }

    /** The critical section that expires one order. */
    method ExpireOne(id: OrderId, now: Time)
      requires db.Valid() && id in db.orders.byId && db.orders.byId[id].expiresAt <= now
      modifies db.orders
      ensures db.Valid() && db.State(now) == Expire(old(db.State(now)), id)
      ensures db.orders.byId.Keys == old(db.orders.byId.Keys)
      ensures forall k :: k in db.orders.byId && k != id ==> db.orders.byId[k] == old(db.orders.byId)[k]
    {
      var current := db.orders.FindById(id);
      if current.None? || current.value.status != Pending {
        return;
      }
      assert Expired in Transitions(Pending);
      var status := AssertTransition(current.value.status, Expired);
      var r := db.orders.Update(current.value.(status := status.value));
    }
  }

  predicate IsStale(orders: map<OrderId, Order>, id: OrderId, now: Time) {
    id in orders && orders[id].status == Pending && orders[id].expiresAt <= now
  }

  ghost predicate Untouched(orders: map<OrderId, Order>, all: map<OrderId, Order>, ids: seq<OrderId>) {
    forall k :: 0 <= k < |ids| ==> ids[k] in all && ids[k] in orders && orders[ids[k]] == all[ids[k]]
  }

  ghost function StaleCount(orders: map<OrderId, Order>, ids: seq<OrderId>, now: Time): nat {
    if ids == [] then 0
    else StaleCount(orders, ids[..|ids| - 1], now) + if IsStale(orders, ids[|ids| - 1], now) then 1 else 0
  }

  /** The stale orders of a list. */
  ghost function StaleAmong(orders: map<OrderId, Order>, ids: seq<OrderId>, now: Time): set<OrderId> {
    set id | id in ids && IsStale(orders, id, now)
  }

  lemma StaleAmongSnoc(orders: map<OrderId, Order>, ids: seq<OrderId>, last: OrderId, now: Time)
    requires last !in ids
    ensures last !in StaleAmong(orders, ids, now)
    ensures StaleAmong(orders, ids + [last], now) ==
            StaleAmong(orders, ids, now) + if IsStale(orders, last, now) then {last} else {}
  {
    hide IsStale;
  }

  lemma {:induction false} StaleCountSet(orders: map<OrderId, Order>, ids: seq<OrderId>, now: Time)
    requires Distinct(ids)
    ensures StaleCount(orders, ids, now) == |StaleAmong(orders, ids, now)|
  {
    hide IsStale;
    if ids == [] {
      assert StaleAmong(orders, ids, now) == {};
    } else {
      hide StaleAmong, Distinct;
      var rest, last := ids[..|ids| - 1], ids[|ids| - 1];
      Unsnoc(ids);
      StaleCountSet(orders, rest, now);
      StaleAmongSnoc(orders, rest, last, now);
      InsertSize(StaleAmong(orders, rest, now), last);
    }
  }

  lemma StaleCountIs(orders: map<OrderId, Order>, ids: seq<OrderId>, now: Time)
    requires Distinct(ids) && Elements(ids) == orders.Keys
    ensures StaleCount(orders, ids[..|ids|], now) == |Stale(orders, now)|
    ensures ids[..|ids|] == ids
  {
    hide IsStale, StaleCount;
    StaleCountSet(orders, ids, now);
    assert forall id :: id in ids <==> id in Elements(ids);
    assert Stale(orders, now) == StaleAmong(orders, ids, now);
    assert ids[..|ids|] == ids;
  }

  ghost function Stale(orders: map<OrderId, Order>, now: Time): set<OrderId> {
    set id | id in orders && IsStale(orders, id, now)
  }

  /** One critical section after the other, as far as orders are stale. */
  function ExpireEach(s: State, ids: seq<OrderId>): State {
    if ids == [] then s else Expire(ExpireEach(s, ids[..|ids| - 1]), ids[|ids| - 1])
  }

  lemma NotDerivedIs(cfg: Config, s: State)
    ensures Apply(cfg, s, AddressNotDerived) == s.(depositCounter := s.depositCounter + 1)
  {
  }

  /** What creating an order comes to. */
  lemma CreateIs(cfg: Config, s: State, s': State, req: OrderRequest, order: Order, accepted: bool)
    requires var counter := s.depositCounter + (if UsesDepositAddress(cfg, req.payMethod) then 1 else 0);
             && order == Order(order.id, order.outTradeNo, req.userId, req.planId, req.payMethod, order.amount, Pending, None, s.now,
                               s.now + cfg.ttlMs, None, 0,
                               if UsesDepositAddress(cfg, req.payMethod) then Some(Derived(cfg.hdStartIndex + counter)) else None)
             && s' == if order.outTradeNo in s.byOutTradeNo then s.(depositCounter := counter)
                      else s.(orders := s.orders[order.id := order.(status := if accepted then Pending else Failed)],
                              byOutTradeNo := s.byOutTradeNo[order.outTradeNo := order.id],
                              byIdempotencyKey := if req.key.Some? then s.byIdempotencyKey[req.key.value := order.id]
                                                  else s.byIdempotencyKey,
                              depositCounter := counter)
    ensures s' == Create(cfg, s, req, order.id, order.outTradeNo, order.amount, accepted)
  {
  }

  lemma NoDangling(orders: OrderRepository)
    requires orders.Valid()
    ensures forall key :: key in orders.byIdem ==> orders.byIdem[key] in orders.byId
    ensures forall no :: no in orders.byOutTradeNo ==>
              orders.byOutTradeNo[no] in orders.byId && orders.byId[orders.byOutTradeNo[no]].id == orders.byOutTradeNo[no]
  {
  }

  /** The orders with every stale one expired. */
  function WithStaleExpired(orders: map<OrderId, Order>, now: Time): map<OrderId, Order> {
    map id | id in orders :: if IsStale(orders, id, now) then orders[id].(status := Expired) else orders[id]
  }

  lemma ExpireIs(s: State, x: OrderId)
    ensures IsStale(s.orders, x, s.now) ==> Expire(s, x).orders == s.orders[x := s.orders[x].(status := Expired)]
    ensures !IsStale(s.orders, x, s.now) ==> Expire(s, x).orders == s.orders
  {
  }

  lemma ExpireAt(s: State, x: OrderId, id: OrderId)
    requires id in s.orders
    ensures var s' := Expire(s, x);
            id in s'.orders && s'.orders[id] == if x == id && IsStale(s.orders, id, s.now) then s.orders[id].(status := Expired) else s.orders[id]
  {
    ExpireIs(s, x);
    hide Expire, IsStale;
  }

  lemma {:induction false} ExpireEachAt(s: State, ids: seq<OrderId>, id: OrderId)
    requires id in s.orders
    ensures var s' := ExpireEach(s, ids);
            && id in s'.orders && s'.now == s.now
            && s'.orders[id] == if IsStale(s.orders, id, s.now) && id in ids then s.orders[id].(status := Expired) else s.orders[id]
  {
    if ids != [] {
      hide Expire;
      var rest, last := ids[..|ids| - 1], ids[|ids| - 1];
      ExpireEachAt(s, rest, id);
      ExpireAt(ExpireEach(s, rest), last, id);
      assert id in ids <==> id in rest || id == last by {
        assert ids == rest + [last];
      }
    }
  }

  lemma {:induction false} ExpireEachFrame(s: State, ids: seq<OrderId>)
    ensures var s' := ExpireEach(s, ids); s' == s.(orders := s'.orders) && s'.orders.Keys == s.orders.Keys
  {
    if ids != [] {
      ExpireEachFrame(s, ids[..|ids| - 1]);
    }
  }

  /** However the orders are listed, a pass expires exactly the stale ones and changes nothing else. */
  lemma ExpireEachIsPass(s: State, ids: seq<OrderId>)
    requires Elements(ids) == s.orders.Keys
    ensures ExpireEach(s, ids) == s.(orders := WithStaleExpired(s.orders, s.now))
  {
    ExpireEachFrame(s, ids);
    forall id | id in s.orders
      ensures ExpireEach(s, ids).orders[id] == WithStaleExpired(s.orders, s.now)[id]
    {
      ExpireEachAt(s, ids, id);
      assert id in Elements(ids);
    }
  }

  lemma Prefixes(s: State, all: map<OrderId, Order>, ids: seq<OrderId>, now: Time)
    requires Elements(ids) == all.Keys && s.orders == all
    ensures ids[..0] == [] && ExpireEach(s, ids[..0]) == s && StaleCount(all, ids[..0], now) == 0
    ensures Untouched(all, all, ids[0..])
  {
    assert forall k :: 0 <= k < |ids| ==> ids[k] in Elements(ids);
  }

  /** What is left to do for one more order of the list. */
  lemma ExpireNext(before: State, s: State, all: map<OrderId, Order>, ids: seq<OrderId>, i: nat, now: Time)
    requires i < |ids| && Distinct(ids) && s.now == now && Untouched(s.orders, all, ids[i..])
    requires s == ExpireEach(before, ids[..i])
    ensures ids[i] in all && ids[i] in s.orders && s.orders[ids[i]] == all[ids[i]]
    ensures ExpireEach(before, ids[..i + 1]) == Expire(s, ids[i])
    ensures StaleCount(all, ids[..i + 1], now) == StaleCount(all, ids[..i], now) + if IsStale(all, ids[i], now) then 1 else 0
    ensures Untouched(Expire(s, ids[i]).orders, all, ids[i + 1..])
    ensures !IsStale(all, ids[i], now) ==> Expire(s, ids[i]) == s
  {
    assert ids[..i + 1][..i] == ids[..i];
    assert ids[i..][0] == ids[i];
    forall k | i < k < |ids|
      ensures ids[k] != ids[i] && ids[k] in all && ids[k] in s.orders && s.orders[ids[k]] == all[ids[k]]
    {
      assert ids[i..][k - i] == ids[k];
    }
  }
}
