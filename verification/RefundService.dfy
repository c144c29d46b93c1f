/** Refunds as the service issues and resolves them on the stores. */
module RefundService {
  import opened Wrappers
  import opened Domain
  import opened Protocol
  import opened Stores
  import RefundLedger
  import RefundAnswers

  /** A verified refund result as its provider reports it. */
  datatype RefundCallback = RefundCallback(eventId: Label, outRefundNo: Label, success: bool)

  class RefundService {
    const cfg: Config
    const db: Database

    constructor (cfg: Config, db: Database)
      ensures this.cfg == cfg && this.db == db
    {
      this.cfg, this.db := cfg, db;
    }

    // ---- issuing

    /**
     Refunds an order, in full if no amount is given.  `answer` is what the provider
     says, nothing if it throws; it is not asked for methods without refunds.
     */
    method RefundOrder(id: OrderId, amount: Option<int>, no: Option<Label>, newNo: Label, rid: RefundId,
                       answer: Option<RefundStatus>, now: Time) returns (r: Result<Refund>)
      requires db.Valid() && rid !in db.refunds.byId
      modifies db.orders, db.refunds
      ensures db.Valid()
      ensures var s := old(db.State(now)); var req := RefundRequest(id, amount, if no.Some? then no.value else newNo);
              if no.Some? && IsKnown(s, no.value) then db.State(now) == s && r == Ok(s.refunds[s.byOutRefundNo[no.value]])
              else if RefundCheck(cfg, s, req).Err? then db.State(now) == s && r == Err(RefundCheck(cfg, s, req).error)
              else if answer.None? && id in s.orders && s.orders[id].payMethod != Usdt then db.State(now) == s && r == Err(ProviderFailure)
              else
                && db.State(now) == Apply(cfg, s, RefundIssued(req, rid, if answer.Some? then answer.value else RefundManual))
                && (r.Ok? <==> req.outRefundNo !in s.byOutRefundNo) && (r.Err? ==> r.error == Duplicate)
                && (r.Ok? ==> rid in db.refunds.byId && r.value == db.refunds.byId[rid])
    {
      hide OrderRepository.Valid, SubscriptionRepository.Valid, RefundRepository.Valid, RefundCheck, Reserve, IssueRefund, Apply;
      if no.Some? {
        var existing := db.refunds.FindByOutRefundNo(no.value);
        if existing.Some? {
          return Ok(existing.value);
        }
      }
      var outRefundNo := if no.Some? then no.value else newNo;
      var due := CheckRefund(RefundRequest(id, amount, outRefundNo), now);
      if due.Err? {
        return Err(due.error);
      }
      var order := db.orders.byId[id];
      if order.payMethod != Usdt && answer.None? {
        return Err(ProviderFailure);
      }
      var status := if order.payMethod == Usdt then RefundManual else answer.value;
      ghost var s := db.State(now);
      r := Record(order, Refund(rid, id, outRefundNo, due.value, status));
      IssueIs(cfg, s, db.State(now), RefundRequest(id, amount, outRefundNo), rid, if answer.Some? then answer.value else RefundManual);
    }

    /** The amount to refund, if the request is in order. */
    method CheckRefund(req: RefundRequest, now: Time) returns (r: Result<int>)
      requires db.Valid()
      ensures r == RefundCheck(cfg, db.State(now), req)
      ensures r.Ok? ==>
                req.orderId in db.orders.byId &&
                var o := db.orders.byId[req.orderId];
                o.id == req.orderId && (o.status == Paid || o.status == Fulfilled) && r.value == RefundAmount(o, req)
    {
      hide OrderRepository.Valid, SubscriptionRepository.Valid, RefundRepository.Valid;
      var found := db.orders.FindById(req.orderId);
      if found.None? {
        return Err(NotFound);
      }
      var order := found.value;
      if order.status != Paid && order.status != Fulfilled {
        return Err(InvalidState);
      }
      var remaining := order.amount - order.refundedAmount;
      var amount := if req.amount.Some? then req.amount.value else remaining;
      if amount <= 0 || amount > remaining || order.payMethod !in cfg.methods {
        return Err(InvalidInput);
      }
      return Ok(amount);
    }

    /** Stores a refund and reserves its amount on the order, unless it has failed. */
    method Record(order: Order, refund: Refund) returns (r: Result<Refund>)
      requires db.Valid() && order.id in db.orders.byId && (order.status == Paid || order.status == Fulfilled)
      modifies db.orders, db.refunds
      ensures db.Valid()
      ensures db.orders.byOutTradeNo == old(db.orders.byOutTradeNo) && db.orders.byIdem == old(db.orders.byIdem)
      ensures refund.outRefundNo in old(db.refunds.byOutRefundNo) ==>
                r == Err(Duplicate) && db.orders.byId == old(db.orders.byId) &&
                db.refunds.byId == old(db.refunds.byId) && db.refunds.byOutRefundNo == old(db.refunds.byOutRefundNo)
      ensures refund.outRefundNo !in old(db.refunds.byOutRefundNo) ==>
                && r == Ok(refund) && db.refunds.byId == old(db.refunds.byId)[refund.id := refund]
                && db.refunds.byOutRefundNo == old(db.refunds.byOutRefundNo)[refund.outRefundNo := refund.id]
                && db.orders.byId ==
                   if refund.status == RefundFailed then old(db.orders.byId)
                   else old(db.orders.byId)[order.id := Reserve(order, order.refundedAmount + refund.amount, IsSettledRefund(refund.status))]
    {
      hide OrderRepository.Valid, SubscriptionRepository.Valid, RefundRepository.Valid;
      r := db.refunds.Create(refund);
      if r.Ok? && refund.status != RefundFailed {
        var reserved := ReserveRefund(order, order.refundedAmount + refund.amount, IsSettledRefund(refund.status));
      }
    }

    /** Records the reserved total, and that the order is refunded if that is complete and settled. */
    method ReserveRefund(order: Order, total: int, settled: bool) returns (r: Result<Order>)
      requires db.orders.Valid() && order.id in db.orders.byId
      modifies db.orders`byId
      ensures db.orders.Valid()
      ensures r.Ok? <==> CanReserve(order, total, settled)
      ensures db.orders.byId == if r.Ok? then old(db.orders.byId)[order.id := Reserve(order, total, settled)] else old(db.orders.byId)
    {
      hide OrderRepository.Valid;
      var updated := order.(refundedAmount := total);
      if settled && total >= order.amount && order.status != Refunded {
        assert Refunded in Transitions(Paid) && Refunded in Transitions(Fulfilled);
        var status := AssertTransition(order.status, Refunded);
        if status.Err? {
          return Err(status.error);
        }
        updated := updated.(status := status.value);
      }
      r := db.orders.Update(updated);
    }

    // ---- results

    /** Handles the notification of a refund result, which only WeChat sends; `cb` is missing if its signature is bad. */
    method HandleRefundCallback(m: Method, cb: Option<RefundCallback>, now: Time) returns (r: Result<bool>)
      requires db.Valid()
      modifies db.orders, db.refunds, db.events
      ensures db.Valid()
      ensures m !in cfg.methods || m != Wechat || cb.None? ==> r.Err? && db.State(now) == old(db.State(now))
      ensures m in cfg.methods && m == Wechat && cb.Some? ==>
                var s := old(db.State(now)); var (no, success) := (cb.value.outRefundNo, cb.value.success);
                var isNew := RefundKey(m, cb.value.eventId) !in s.seen;
                var marked := Apply(cfg, s, RefundCallbackSeen(m, cb.value.eventId));
                if isNew && IsStuck(marked, no, success) then r.Err? && db.State(now) == HalfResolved(marked, no)
                else
                  && db.State(now) == (if isNew then Apply(cfg, marked, RefundResolved(no, success)) else marked)
                  && r == Ok(!isNew || IsKnown(s, no))
    {
      hide OrderRepository.Valid, SubscriptionRepository.Valid, RefundRepository.Valid, ResolveRefund, Apply, IsStuck, HalfResolved;
      if m !in cfg.methods || m != Wechat {
        return Err(InvalidInput);
      }
      if cb.None? {
        return Err(ProviderFailure);
      }
      ghost var s := db.State(now);
      CallbackIs(cfg, s, m, cb.value);
      var isNew := db.events.MarkIfNew(RefundKey(m, cb.value.eventId), now);
      if !isNew {
        return Ok(true);
      }
      ghost var marked := db.State(now);
      var known := db.refunds.FindByOutRefundNo(cb.value.outRefundNo);
      if known.None? {
        NoRefundNoResult(marked, cb.value.outRefundNo, cb.value.success);
        return Ok(false);
      }
      var threw := Resolve(known.value, cb.value, now);
      return if threw then Err(InvalidState) else Ok(true);
    }

    /** The critical section of a refund result; it throws where an order cannot become REFUNDED. */
    method Resolve(refund: Refund, cb: RefundCallback, now: Time) returns (threw: bool)
      requires db.Valid() && cb.outRefundNo in db.refunds.byOutRefundNo && refund.id == db.refunds.byOutRefundNo[cb.outRefundNo]
      requires refund.id in db.refunds.byId && refund == db.refunds.byId[refund.id]
      modifies db.orders`byId, db.refunds`byId
      ensures db.Valid()
      ensures threw == IsStuck(old(db.State(now)), cb.outRefundNo, cb.success)
      ensures db.State(now) == if threw then HalfResolved(old(db.State(now)), cb.outRefundNo)
                               else ResolveRefund(old(db.State(now)), cb.outRefundNo, cb.success)
    {
      hide OrderRepository.Valid, SubscriptionRepository.Valid, RefundRepository.Valid, CanReserve;
      if refund.status != RefundPending {
        return false;
      }
      db.refunds.Update(refund.(status := if cb.success then RefundSuccess else RefundFailed));
      var found := db.orders.FindById(refund.orderId);
      if found.None? {
        return false;
      }
      var order := found.value;
      if cb.success {
        var reserved := ReserveRefund(order, order.refundedAmount, true);
        threw := reserved.Err?;
      } else {
        var left := order.refundedAmount - refund.amount;
        var updated := db.orders.Update(order.(refundedAmount := if left < 0 then 0 else left));
        threw := false;
      }
    }
  }

  /** The order can take the reservation: a complete and settled one takes a legal transition. */
  ghost predicate CanReserve(o: Order, total: int, settled: bool) {
    settled && total >= o.amount ==> RefundLedger.Refundable(o)
  }

  /** An order can take a reservation exactly if what that makes of its status is no illegal transition. */
  lemma CanReserveIffLegal(o: Order, total: int, settled: bool)
    ensures CanReserve(o, total, settled) <==> AssertTransition(o.status, Reserve(o, total, settled).status).Ok?
  {
    assert Refunded in Transitions(Paid) && Refunded in Transitions(Fulfilled);
  }

  /** In a balanced ledger a number is known exactly if one of the refunds has it. */
  lemma KnownIff(s: State, no: Label)
    requires RefundLedger.Balanced(s)
    ensures IsKnown(s, no) <==> exists rid :: rid in s.refunds && s.refunds[rid].outRefundNo == no
  {
    RefundAnswers.NumberTaken(s, no);
  }

  ghost predicate IsKnown(s: State, no: Label) {
    no in s.byOutRefundNo && s.byOutRefundNo[no] in s.refunds
  }

  /** A result that would complete an order that was never paid. */
  ghost predicate IsStuck(s: State, no: Label, success: bool) {
    AwaitsResult(s, no) && success &&
    var id := s.refunds[s.byOutRefundNo[no]].orderId;
    id in s.orders && !CanReserve(s.orders[id], s.orders[id].refundedAmount, true)
  }

  /** The refund has its result, and the order does not know. */
  ghost function HalfResolved(s: State, no: Label): State {
    if !IsKnown(s, no) then s else
      var rid := s.byOutRefundNo[no];
      s.(refunds := s.refunds[rid := s.refunds[rid].(status := RefundSuccess)])
  }

  /** A success gets stuck exactly if it would complete an order that was never paid; the refund then says so and the order does not. */
  lemma StuckIff(s: State, no: Label, success: bool)
    ensures IsStuck(s, no, success) <==>
            success && AwaitsResult(s, no) &&
            var id := s.refunds[s.byOutRefundNo[no]].orderId;
            && id in s.orders && s.orders[id].amount <= s.orders[id].refundedAmount
            && s.orders[id].status in {Pending, Expired, Cancelled, Failed}
    ensures IsStuck(s, no, success) ==>
            HalfResolved(s, no).orders == s.orders && HalfResolved(s, no).refunds == ResolveRefund(s, no, success).refunds
  {
  }

  /** In a balanced ledger no result gets stuck. */
  lemma BalancedNeverStuck(s: State, no: Label, success: bool)
    requires RefundLedger.Balanced(s)
    ensures !IsStuck(s, no, success)
  {
    if AwaitsResult(s, no) {
      RefundedOrderIsPaid(s, no);
    }
  }

  /** What issuing a refund comes to. */
  lemma IssueIs(cfg: Config, s: State, s': State, req: RefundRequest, rid: RefundId, answer: RefundStatus)
    requires RefundCheck(cfg, s, req).Ok? && req.orderId in s.orders
    requires req.outRefundNo in s.byOutRefundNo ==> s' == s
    requires req.outRefundNo !in s.byOutRefundNo ==>
               var o := s.orders[req.orderId]; var status := RefundStatusFrom(o.payMethod, answer);
               s' == s.(refunds := s.refunds[rid := Refund(rid, req.orderId, req.outRefundNo, RefundAmount(o, req), status)],
                        byOutRefundNo := s.byOutRefundNo[req.outRefundNo := rid],
                        orders := if status == RefundFailed then s.orders
                                  else s.orders[req.orderId := Reserve(o, o.refundedAmount + RefundAmount(o, req), IsSettledRefund(status))])
    ensures s' == IssueRefund(cfg, s, req, rid, answer) == Apply(cfg, s, RefundIssued(req, rid, answer))
  {
    hide RefundCheck;
  }

  lemma CallbackIs(cfg: Config, s: State, m: Method, cb: RefundCallback)
    ensures Apply(cfg, s, RefundCallbackSeen(m, cb.eventId)) == Mark(s, RefundKey(m, cb.eventId), None)
    ensures forall x :: Apply(cfg, x, RefundResolved(cb.outRefundNo, cb.success)) == ResolveRefund(x, cb.outRefundNo, cb.success)
  {
    hide Mark, ResolveRefund;
  }

  lemma NoRefundNoResult(s: State, no: Label, success: bool)
    requires no !in s.byOutRefundNo || s.byOutRefundNo[no] !in s.refunds
    ensures ResolveRefund(s, no, success) == s && !IsStuck(s, no, success)
  {
  }

  lemma RefundedOrderIsPaid(s: State, no: Label)
    requires RefundLedger.Balanced(s) && AwaitsResult(s, no)
    ensures var r := s.refunds[s.byOutRefundNo[no]]; r.orderId in s.orders && RefundLedger.Refundable(s.orders[r.orderId])
  {
    var rid := s.byOutRefundNo[no];
    assert rid in s.refunds && s.refunds[rid].id == rid;
  }
}
