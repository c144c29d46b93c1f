/**
 The refund ledger: reservations, settlements and releases of refunds always add up
 to what the order says, over every run of the protocol.
 */
module RefundLedger {
  import opened Wrappers
  import opened Domain
  import opened Finite
  import opened Protocol

  type Refunds = map<RefundId, Refund>
  type Orders = map<OrderId, Order>

  // ---- totals per order

  ghost predicate IsOf(refunds: Refunds, rid: RefundId, id: OrderId) {
    rid in refunds && refunds[rid].orderId == id
  }

  ghost predicate IsPendingOf(refunds: Refunds, rid: RefundId, id: OrderId) {
    IsOf(refunds, rid, id) && refunds[rid].status == RefundPending
  }

  ghost function Reserved(refunds: Refunds, id: OrderId): RefundId -> int {
    rid => if IsOf(refunds, rid, id) && refunds[rid].status != RefundFailed then refunds[rid].amount else 0
  }

  ghost function Settling(refunds: Refunds, id: OrderId): RefundId -> int {
    rid => if IsOf(refunds, rid, id) && IsSettledRefund(refunds[rid].status) then refunds[rid].amount else 0
  }

  ghost function Waiting(refunds: Refunds, id: OrderId): RefundId -> int {
    rid => if IsPendingOf(refunds, rid, id) then refunds[rid].amount else 0
  }

  /** The sum of an order's refunds that have not failed. */
  ghost function ReservedTotal(refunds: Refunds, id: OrderId): int {
    Sum(refunds.Keys, Reserved(refunds, id))
  }

  /** The sum of an order's refunds whose funds have left. */
  ghost function SettledTotal(refunds: Refunds, id: OrderId): int {
    Sum(refunds.Keys, Settling(refunds, id))
  }

  ghost function PendingTotal(refunds: Refunds, id: OrderId): int {
    Sum(refunds.Keys, Waiting(refunds, id))
  }

  lemma TotalsSplit(refunds: Refunds, id: OrderId)
    ensures ReservedTotal(refunds, id) == SettledTotal(refunds, id) + PendingTotal(refunds, id)
  {
    SumSplit(refunds.Keys, Reserved(refunds, id), Settling(refunds, id), Waiting(refunds, id));
  }

  ghost predicate NonePending(refunds: Refunds, id: OrderId) {
    forall rid :: !IsPendingOf(refunds, rid, id)
  }

  ghost predicate PositiveAmounts(refunds: Refunds) {
    forall rid :: rid in refunds ==> refunds[rid].amount > 0
  }

  lemma PendingTotalZero(refunds: Refunds, id: OrderId)
    requires PositiveAmounts(refunds)
    ensures PendingTotal(refunds, id) >= 0
    ensures PendingTotal(refunds, id) == 0 <==> NonePending(refunds, id)
  {
    var f := Waiting(refunds, id);
    SumAtLeast(refunds.Keys, f, {});
    if NonePending(refunds, id) {
      SumZero(refunds.Keys, f);
    } else {
      var rid :| IsPendingOf(refunds, rid, id);
      SumPick(refunds.Keys, f, rid);
      SumAtLeast(refunds.Keys - {rid}, f, {});
    }
  }

  /** A refund that counts is part of the reserved total. */
  lemma CountedInTotal(refunds: Refunds, rid: RefundId, id: OrderId)
    requires PositiveAmounts(refunds) && IsOf(refunds, rid, id) && refunds[rid].status != RefundFailed
    ensures ReservedTotal(refunds, id) >= refunds[rid].amount
  {
    var f := Reserved(refunds, id);
    SumPick(refunds.Keys, f, rid);
    SumAtLeast(refunds.Keys - {rid}, f, {});
  }

  lemma TotalAfterInsert(refunds: Refunds, r: Refund, id: OrderId)
    requires r.id !in refunds
    ensures ReservedTotal(refunds[r.id := r], id) ==
            ReservedTotal(refunds, id) + if r.orderId == id && r.status != RefundFailed then r.amount else 0
  {
    var after := refunds[r.id := r];
    SumGrows(refunds.Keys, Reserved(refunds, id), Reserved(after, id), r.id);
    assert after.Keys == refunds.Keys + {r.id};
  }

  lemma TotalAfterUpdate(refunds: Refunds, rid: RefundId, status: RefundStatus, id: OrderId)
    requires rid in refunds
    ensures var after := refunds[rid := refunds[rid].(status := status)];
            ReservedTotal(after, id) ==
            ReservedTotal(refunds, id) - Reserved(refunds, id)(rid) + Reserved(after, id)(rid)
  {
    var after := refunds[rid := refunds[rid].(status := status)];
    SumChange(refunds.Keys, Reserved(refunds, id), Reserved(after, id), rid);
    assert after.Keys == refunds.Keys;
  }

  // ---- the invariant

  predicate Refundable(o: Order) {
    o.status == Paid || o.status == Fulfilled || o.status == Refunded
  }

  /** A complete refund without pending parts has moved the order to REFUNDED. */
  ghost predicate CompleteIsRefunded(o: Order, refunds: Refunds, id: OrderId) {
    o.refundedAmount == o.amount && NonePending(refunds, id) ==> o.status == Refunded
  }

  ghost predicate OrderBalanced(o: Order, refunds: Refunds, id: OrderId) {
    && o.amount > 0
    && o.refundedAmount == ReservedTotal(refunds, id)
    && 0 <= o.refundedAmount <= o.amount
    && CompleteIsRefunded(o, refunds, id)
  }

  /** Refunds belong to paid orders, and their numbers index them one to one. */
  ghost predicate RefundsIndexed(s: State) {
    && (forall rid :: rid in s.refunds ==>
          var r := s.refunds[rid];
          r.id == rid && r.amount > 0 && r.orderId in s.orders && Refundable(s.orders[r.orderId]) &&
          r.outRefundNo in s.byOutRefundNo && s.byOutRefundNo[r.outRefundNo] == rid)
    && (forall no :: no in s.byOutRefundNo ==>
          s.byOutRefundNo[no] in s.refunds && s.refunds[s.byOutRefundNo[no]].outRefundNo == no)
  }

  ghost predicate Balanced(s: State) {
    && RefundsIndexed(s)
    && forall id :: id in s.orders ==> OrderBalanced(s.orders[id], s.refunds, id)
  }

  // ---- every step keeps it

  lemma NoRefundsNoTotal(refunds: Refunds, id: OrderId)
    requires forall rid :: rid in refunds ==> refunds[rid].orderId != id
    ensures ReservedTotal(refunds, id) == 0
  {
    SumZero(refunds.Keys, Reserved(refunds, id));
  }

  lemma CreateKeepsBalance(cfg: Config, s: State, req: OrderRequest, id: OrderId, no: Label, amount: nat, accepted: bool)
    requires WellConfigured(cfg) && Balanced(s) && CanCreate(cfg, s, req, id, amount)
    ensures Balanced(Create(cfg, s, req, id, no, amount, accepted))
  {
    hide ReservedTotal, NonePending;
    var s' := Create(cfg, s, req, id, no, amount, accepted);
    if no !in s.byOutTradeNo {
      NoRefundsNoTotal(s.refunds, id);
      AmountIsPositive(cfg, s, req, id, amount);
      NewOrderKeepsBalance(s, s', id);
    }
  }

  lemma AmountIsPositive(cfg: Config, s: State, req: OrderRequest, id: OrderId, amount: nat)
    requires WellConfigured(cfg) && CanCreate(cfg, s, req, id, amount)
    ensures amount > 0
  {
  }

  lemma NewOrderKeepsBalance(s: State, s': State, id: OrderId)
    requires Balanced(s) && id !in s.orders && ReservedTotal(s.refunds, id) == 0
    requires s'.refunds == s.refunds && s'.byOutRefundNo == s.byOutRefundNo
    requires id in s'.orders && s'.orders == s.orders[id := s'.orders[id]]
    requires s'.orders[id].amount > 0 && s'.orders[id].refundedAmount == 0
    ensures Balanced(s')
  {
    hide ReservedTotal, NonePending;
    assert RefundsIndexed(s');
  }

  /** Moving a pending order to another status without touching its money keeps the balance. */
  lemma StatusChangeKeepsBalance(s: State, s': State, id: OrderId)
    requires Balanced(s) && id in s.orders && s.orders[id].status == Pending
    requires s'.refunds == s.refunds && s'.byOutRefundNo == s.byOutRefundNo
    requires id in s'.orders && s'.orders == s.orders[id := s'.orders[id]]
    requires s'.orders[id].amount == s.orders[id].amount && s'.orders[id].refundedAmount == s.orders[id].refundedAmount
    ensures Balanced(s')
  {
    hide ReservedTotal, NonePending;
    forall rid | rid in s.refunds
      ensures s.refunds[rid].orderId != id
    {
    }
  }

  lemma DeliverKeepsBalance(cfg: Config, s: State, p: Payment, newSub: SubId)
    requires Balanced(s)
    ensures Balanced(Deliver(cfg, s, p, newSub))
  {
    hide Balanced, Grant;
    if p.orderId in s.orders && Accepts(s.orders[p.orderId], p) {
      StatusChangeKeepsBalance(s, Deliver(cfg, s, p, newSub), p.orderId);
    } else {
      SameLedger(s, Deliver(cfg, s, p, newSub));
    }
  }

  lemma ExpireKeepsBalance(s: State, id: OrderId)
    requires Balanced(s)
    ensures Balanced(Expire(s, id))
  {
    hide Balanced;
    if Expire(s, id) != s {
      StatusChangeKeepsBalance(s, Expire(s, id), id);
    }
  }

  lemma SameLedger(s: State, s': State)
    requires Balanced(s) && s'.orders == s.orders && s'.refunds == s.refunds && s'.byOutRefundNo == s.byOutRefundNo
    ensures Balanced(s')
  {
    hide OrderBalanced;
    assert RefundsIndexed(s');
  }

  lemma PendingAfterInsert(refunds: Refunds, r: Refund, id: OrderId)
    requires r.id !in refunds
    ensures NonePending(refunds[r.id := r], id) <==>
            NonePending(refunds, id) && !(r.orderId == id && r.status == RefundPending)
  {
    var after := refunds[r.id := r];
    assert IsPendingOf(after, r.id, id) <==> r.orderId == id && r.status == RefundPending;
    forall rid | rid != r.id
      ensures IsPendingOf(after, rid, id) <==> IsPendingOf(refunds, rid, id)
    {
    }
  }

  lemma IssueKeepsOrder(s: State, o: Order, r: Refund, id: OrderId)
    requires OrderBalanced(o, s.refunds, id) && r.id !in s.refunds && r.amount > 0
    ensures r.orderId != id || r.status == RefundFailed ==> OrderBalanced(o, s.refunds[r.id := r], id)
    ensures r.orderId == id && r.status != RefundFailed && r.amount <= o.amount - o.refundedAmount ==>
            OrderBalanced(Protocol.Reserve(o, o.refundedAmount + r.amount, IsSettledRefund(r.status)), s.refunds[r.id := r], id)
  {
    hide ReservedTotal, NonePending;
    TotalAfterInsert(s.refunds, r, id);
    PendingAfterInsert(s.refunds, r, id);
  }

  lemma IssueKeepsBalance(cfg: Config, s: State, req: RefundRequest, rid: RefundId, answer: RefundStatus)
    requires Balanced(s) && rid !in s.refunds
    ensures Balanced(IssueRefund(cfg, s, req, rid, answer))
  {
    hide OrderBalanced;
    if RefundCheck(cfg, s, req).Ok? && req.outRefundNo !in s.byOutRefundNo {
      var s' := IssueRefund(cfg, s, req, rid, answer);
      assert RefundsIndexed(s');
      forall id | id in s'.orders
        ensures OrderBalanced(s'.orders[id], s'.refunds, id)
      {
        IssueKeepsOrder(s, s.orders[id], s'.refunds[rid], id);
      }
    }
  }

  /** The clamp on release never takes effect: the order reserved at least the released amount. */
  lemma ReleaseNeverClamps(s: State, outRefundNo: Label)
    requires Balanced(s) && AwaitsResult(s, outRefundNo)
    ensures var r := s.refunds[s.byOutRefundNo[outRefundNo]];
            r.orderId in s.orders && s.orders[r.orderId].refundedAmount >= r.amount
  {
    hide ReservedTotal, NonePending;
    var rid := s.byOutRefundNo[outRefundNo];
    CountedInTotal(s.refunds, rid, s.refunds[rid].orderId);
  }

  lemma PendingAfterUpdate(refunds: Refunds, rid: RefundId, status: RefundStatus, id: OrderId)
    requires rid in refunds && status != RefundPending
    ensures refunds[rid].orderId != id ==>
              (NonePending(refunds[rid := refunds[rid].(status := status)], id) <==> NonePending(refunds, id))
  {
    var after := refunds[rid := refunds[rid].(status := status)];
    forall k
      ensures k != rid ==> (IsPendingOf(after, k, id) <==> IsPendingOf(refunds, k, id))
    {
    }
    if refunds[rid].orderId != id {
      assert !IsPendingOf(after, rid, id) && !IsPendingOf(refunds, rid, id);
    }
  }

  lemma ResolveKeepsOrder(refunds: Refunds, o: Order, rid: RefundId, success: bool, id: OrderId)
    requires OrderBalanced(o, refunds, id) && rid in refunds
    requires refunds[rid].status == RefundPending && refunds[rid].amount > 0
    requires refunds[rid].orderId == id ==> o.refundedAmount >= refunds[rid].amount
    ensures var after := refunds[rid := refunds[rid].(status := if success then RefundSuccess else RefundFailed)];
            OrderBalanced(if refunds[rid].orderId == id then ResolveOrder(o, refunds[rid], success) else o, after, id)
  {
    hide ReservedTotal, NonePending;
    var status := if success then RefundSuccess else RefundFailed;
    TotalAfterUpdate(refunds, rid, status, id);
    PendingAfterUpdate(refunds, rid, status, id);
  }

  lemma ResolveKeepsBalance(s: State, outRefundNo: Label, success: bool)
    requires Balanced(s)
    ensures Balanced(ResolveRefund(s, outRefundNo, success))
  {
    hide OrderBalanced, ResolveOrder;
    if AwaitsResult(s, outRefundNo) {
      ReleaseNeverClamps(s, outRefundNo);
      var s' := ResolveRefund(s, outRefundNo, success);
      var rid := s.byOutRefundNo[outRefundNo];
      assert RefundsIndexed(s') by {
        ResolveKeepsStatus(s, outRefundNo, success);
      }
      forall id | id in s'.orders
        ensures OrderBalanced(s'.orders[id], s'.refunds, id)
      {
        ResolveKeepsOrder(s.refunds, s.orders[id], rid, success, id);
      }
    }
  }

  lemma ResolveKeepsStatus(s: State, outRefundNo: Label, success: bool)
    requires Balanced(s) && AwaitsResult(s, outRefundNo)
    ensures var r := s.refunds[s.byOutRefundNo[outRefundNo]];
            r.orderId in s.orders && Refundable(ResolveOrder(s.orders[r.orderId], r, success))
  {
    hide OrderBalanced;
    var rid := s.byOutRefundNo[outRefundNo];
    assert rid in s.refunds;
  }

  lemma ApplyKeepsBalance(cfg: Config, chain: Chain, s: State, e: Event)
    requires WellConfigured(cfg) && Balanced(s) && Enabled(cfg, chain, s, e)
    ensures Balanced(Apply(cfg, s, e))
  {
    hide Balanced, IssueRefund, ResolveRefund, Create, Deliver, Expire, CanCreate;
    match e {
      case CreateOrder(req, id, no, amount, accepted) => CreateKeepsBalance(cfg, s, req, id, no, amount, accepted);
      case PaymentDelivered(p, newSub) => DeliverKeepsBalance(cfg, s, p, newSub);
      case OrderExpired(id) => ExpireKeepsBalance(s, id);
      case RefundIssued(req, rid, answer) => IssueKeepsBalance(cfg, s, req, rid, answer);
      case RefundResolved(no, success) => ResolveKeepsBalance(s, no, success);
      case _ => SameLedger(s, Apply(cfg, s, e));
    }
  }

  /** In every state of every run the ledger is balanced. */
  lemma {:induction false} AlwaysBalanced(cfg: Config, chain: Chain, events: seq<Event>, run: seq<State>, i: nat)
    requires WellConfigured(cfg) && IsRun(cfg, chain, events, run) && i < |run|
    ensures Balanced(run[i])
  {
    hide Enabled, Apply, Balanced;
    if i == 0 {
      InitiallyBalanced(run[0].now);
    } else {
      AlwaysBalanced(cfg, chain, events, run, i - 1);
      ApplyKeepsBalance(cfg, chain, run[i - 1], events[i - 1]);
    }
  }

  lemma InitiallyBalanced(now: Time)
    ensures Balanced(Initial(now))
  {
  }

  // ---- when REFUNDED means that the whole amount has left

  /** Another refund of the order, than `except`, still waits for its result. */
  ghost predicate OtherPending(refunds: Refunds, id: OrderId, except: RefundId) {
    exists rid :: rid != except && IsPendingOf(refunds, rid, id)
  }

  /** In a balanced ledger all the money of an order has left exactly when it is all reserved and nothing waits. */
  lemma FullyLeft(s: State, id: OrderId)
    requires Balanced(s) && id in s.orders
    ensures SettledTotal(s.refunds, id) == s.orders[id].amount <==>
            s.orders[id].refundedAmount == s.orders[id].amount && NonePending(s.refunds, id)
  {
    hide ReservedTotal, SettledTotal, PendingTotal, NonePending;
    TotalsSplit(s.refunds, id);
    PendingTotalZero(s.refunds, id);
  }

  /**
   A refund request that completes the order leaves the whole amount settled if and
   only if no other refund of that order was pending when it was made.
   */
  lemma IssueCompletes(cfg: Config, s: State, req: RefundRequest, rid: RefundId, answer: RefundStatus)
    requires Balanced(s) && rid !in s.refunds && req.orderId in s.orders
    requires s.orders[req.orderId].status != Refunded
    requires IssueRefund(cfg, s, req, rid, answer).orders[req.orderId].status == Refunded
    ensures var s' := IssueRefund(cfg, s, req, rid, answer);
            SettledTotal(s'.refunds, req.orderId) == s'.orders[req.orderId].amount <==>
            !OtherPending(s.refunds, req.orderId, rid)
  {
    hide OrderBalanced, SettledTotal;
    var (s', id) := (IssueRefund(cfg, s, req, rid, answer), req.orderId);
    IssueKeepsBalance(cfg, s, req, rid, answer);
    FullyLeft(s', id);
    PendingAfterInsert(s.refunds, s'.refunds[rid], id);
    CompleteAmount(s', id);
    CompleteAmount(s, id);
    assert NonePending(s.refunds, id) <==> !OtherPending(s.refunds, id, rid);
  }

  /** A refund without an amount, unless it fails at once, reserves all that is left. */
  lemma FullRefundReservesAll(cfg: Config, s: State, id: OrderId, no: Label, rid: RefundId, answer: RefundStatus)
    requires Balanced(s) && rid !in s.refunds && no !in s.byOutRefundNo
    requires RefundCheck(cfg, s, RefundRequest(id, None, no)).Ok? && answer != RefundFailed
    ensures var s' := IssueRefund(cfg, s, RefundRequest(id, None, no), rid, answer);
            id in s'.orders && s'.orders[id].refundedAmount == s'.orders[id].amount == ReservedTotal(s'.refunds, id)
  {
    IssueKeepsBalance(cfg, s, RefundRequest(id, None, no), rid, answer);
  }

  lemma CompleteAmount(s: State, id: OrderId)
    requires Balanced(s) && id in s.orders
    ensures s.orders[id].refundedAmount <= s.orders[id].amount
  {
  }

  /** The same for a refund result that completes the order. */
  lemma ResolveCompletes(s: State, outRefundNo: Label, success: bool)
    requires Balanced(s) && AwaitsResult(s, outRefundNo)
    requires var id := s.refunds[s.byOutRefundNo[outRefundNo]].orderId;
             id in s.orders && s.orders[id].status != Refunded &&
             ResolveRefund(s, outRefundNo, success).orders[id].status == Refunded
    ensures var rid := s.byOutRefundNo[outRefundNo];
            var id := s.refunds[rid].orderId;
            var s' := ResolveRefund(s, outRefundNo, success);
            SettledTotal(s'.refunds, id) == s'.orders[id].amount <==> !OtherPending(s.refunds, id, rid)
  {
    hide OrderBalanced, SettledTotal;
    var rid := s.byOutRefundNo[outRefundNo];
    var id := s.refunds[rid].orderId;
    var s' := ResolveRefund(s, outRefundNo, success);
    ResolveKeepsBalance(s, outRefundNo, success);
    FullyLeft(s', id);
    CompleteAmount(s, id);
    forall k | k != rid
      ensures IsPendingOf(s'.refunds, k, id) <==> IsPendingOf(s.refunds, k, id)
    {
    }
    assert !IsPendingOf(s'.refunds, rid, id);
    if OtherPending(s.refunds, id, rid) {
      var k :| k != rid && IsPendingOf(s.refunds, k, id);
      assert IsPendingOf(s'.refunds, k, id);
    }
  }

  /** Everything has left: the order is REFUNDED, all of it reserved, nothing waiting. */
  ghost predicate SoundlyRefunded(s: State, id: OrderId) {
    id in s.orders && s.orders[id].status == Refunded ==>
      s.orders[id].refundedAmount == s.orders[id].amount && NonePending(s.refunds, id)
  }

  /** Refunds of one order are issued one at a time. */
  ghost predicate OneAtATime(s: State, e: Event) {
    e.RefundIssued? ==> NonePending(s.refunds, e.rreq.orderId)
  }

  ghost predicate AtMostOnePending(s: State) {
    forall i, j, id :: IsPendingOf(s.refunds, i, id) && IsPendingOf(s.refunds, j, id) ==> i == j
  }

  ghost predicate Disciplined(s: State) {
    AtMostOnePending(s) && forall id :: SoundlyRefunded(s, id)
  }

  lemma IssueKeepsDiscipline(cfg: Config, s: State, req: RefundRequest, rid: RefundId, answer: RefundStatus)
    requires Balanced(s) && Disciplined(s) && rid !in s.refunds && NonePending(s.refunds, req.orderId)
    ensures Disciplined(IssueRefund(cfg, s, req, rid, answer))
  {
    hide OrderBalanced, ReservedTotal;
    var s' := IssueRefund(cfg, s, req, rid, answer);
    if s' != s {
      CompleteAmount(s, req.orderId);
      forall k, id
        ensures IsPendingOf(s'.refunds, k, id) ==> k == rid || IsPendingOf(s.refunds, k, id)
      {
      }
      forall id
        ensures SoundlyRefunded(s', id)
      {
        PendingAfterInsert(s.refunds, s'.refunds[rid], id);
        assert SoundlyRefunded(s, id);
      }
    }
  }

  lemma ResolveKeepsDiscipline(s: State, outRefundNo: Label, success: bool)
    requires Balanced(s) && Disciplined(s)
    ensures Disciplined(ResolveRefund(s, outRefundNo, success))
  {
    hide OrderBalanced, ReservedTotal;
    if AwaitsResult(s, outRefundNo) {
      var s' := ResolveRefund(s, outRefundNo, success);
      var rid := s.byOutRefundNo[outRefundNo];
      var own := s.refunds[rid].orderId;
      assert IsPendingOf(s.refunds, rid, own);
      forall k, id
        ensures IsPendingOf(s'.refunds, k, id) ==> k != rid && IsPendingOf(s.refunds, k, id)
      {
      }
      forall id
        ensures SoundlyRefunded(s', id)
      {
        assert SoundlyRefunded(s, id);
        if id == own && id in s.orders {
          CompleteAmount(s, id);
          assert NonePending(s'.refunds, id);
        }
      }
    }
  }

  /** No order becomes REFUNDED, and refunded orders keep their money. */
  ghost predicate KeepsRefunded(s: State, s': State) {
    s'.refunds == s.refunds &&
    forall id :: id in s'.orders && s'.orders[id].status == Refunded ==>
      id in s.orders && s.orders[id].status == Refunded &&
      s'.orders[id].amount == s.orders[id].amount && s'.orders[id].refundedAmount == s.orders[id].refundedAmount
  }

  lemma KeepsRefundedKeepsDiscipline(s: State, s': State)
    requires Disciplined(s) && KeepsRefunded(s, s')
    ensures Disciplined(s')
  {
    hide NonePending;
    forall id
      ensures SoundlyRefunded(s', id)
    {
      assert SoundlyRefunded(s, id);
    }
    assert AtMostOnePending(s');
  }

  lemma CreateKeepsRefunded(cfg: Config, s: State, req: OrderRequest, id: OrderId, no: Label, amount: nat, accepted: bool)
    ensures KeepsRefunded(s, Create(cfg, s, req, id, no, amount, accepted))
  {
    var s' := Create(cfg, s, req, id, no, amount, accepted);
    if no !in s.byOutTradeNo {
      OneOrderChanged(s, s', id);
    }
  }

  /** Storing one order that is not REFUNDED refunds nothing. */
  lemma OneOrderChanged(s: State, s': State, id: OrderId)
    requires s'.refunds == s.refunds && id in s'.orders && s'.orders[id].status != Refunded
    requires s'.orders == s.orders[id := s'.orders[id]]
    ensures KeepsRefunded(s, s')
  {
  }

  lemma DeliverKeepsRefunded(cfg: Config, s: State, p: Payment, newSub: SubId)
    ensures KeepsRefunded(s, Deliver(cfg, s, p, newSub))
  {
    hide Deliver, KeepsRefunded;
    DeliverOrders(cfg, s, p, newSub);
    var s' := Deliver(cfg, s, p, newSub);
    if s'.orders == s.orders {
      SameKeepsRefunded(s, s');
    } else {
      OneOrderChanged(s, s', p.orderId);
    }
  }

  lemma ExpireKeepsRefunded(s: State, id: OrderId)
    ensures KeepsRefunded(s, Expire(s, id))
  {
    hide KeepsRefunded;
    if Expire(s, id) == s {
      SameKeepsRefunded(s, s);
    } else {
      OneOrderChanged(s, Expire(s, id), id);
    }
  }

  lemma SameKeepsRefunded(s: State, s': State)
    requires s'.refunds == s.refunds && s'.orders == s.orders
    ensures KeepsRefunded(s, s')
  {
  }

  lemma ApplyKeepsDiscipline(cfg: Config, chain: Chain, s: State, e: Event)
    requires Balanced(s) && Disciplined(s) && Enabled(cfg, chain, s, e) && OneAtATime(s, e)
    ensures Disciplined(Apply(cfg, s, e))
  {
    hide Balanced, Disciplined, IssueRefund, ResolveRefund, Create, Deliver, Expire, CanCreate, NonePending, KeepsRefunded;
    hide Mark, Remind, Deactivate, SweepSeen, OnChain;
    if e.RefundIssued? {
      IssueKeepsDiscipline(cfg, s, e.rreq, e.rid, e.answer);
    } else if e.RefundResolved? {
      ResolveKeepsDiscipline(s, e.outRefundNo, e.success);
    } else {
      if e.CreateOrder? {
        CreateKeepsRefunded(cfg, s, e.req, e.id, e.outTradeNo, e.due, e.accepted);
      } else if e.PaymentDelivered? {
        DeliverKeepsRefunded(cfg, s, e.p, e.newSub);
      } else if e.OrderExpired? {
        ExpireKeepsRefunded(s, e.id);
      } else {
        OtherSteps(cfg, s, e);
        SameKeepsRefunded(s, Apply(cfg, s, e));
      }
      KeepsRefundedKeepsDiscipline(s, Apply(cfg, s, e));
    }
  }

  /**
   In every run in which no refund is issued while another refund of its order is
   pending, a REFUNDED order has been refunded in full by settled refunds.
   */
  lemma {:induction false} RefundedMeansSettled(cfg: Config, chain: Chain, events: seq<Event>, run: seq<State>, i: nat)
    requires WellConfigured(cfg) && IsRun(cfg, chain, events, run) && i < |run|
    requires forall k :: 0 <= k < |events| ==> OneAtATime(run[k], events[k])
    ensures Disciplined(run[i])
    ensures forall id :: id in run[i].orders && run[i].orders[id].status == Refunded ==>
              SettledTotal(run[i].refunds, id) == run[i].orders[id].amount
  {
    hide Enabled, Apply, Balanced, SettledTotal, OneAtATime;
    if i > 0 {
      hide Disciplined;
      RefundedMeansSettled(cfg, chain, events, run, i - 1);
      AlwaysBalanced(cfg, chain, events, run, i - 1);
      ApplyKeepsDiscipline(cfg, chain, run[i - 1], events[i - 1]);
    }
    AlwaysBalanced(cfg, chain, events, run, i);
    forall id | id in run[i].orders && run[i].orders[id].status == Refunded
      ensures SettledTotal(run[i].refunds, id) == run[i].orders[id].amount
    {
      assert SoundlyRefunded(run[i], id);
      FullyLeft(run[i], id);
    }
  }

  // ---- a run that needs the discipline

  const SHOP := Config(map[1 := Plan(1000, 1500, 2000)], {Wechat}, 900, 10, false, External(0), 0, 10, 100000)

  const PAYMENT := Payment(0, Wechat, 5, 1500)

  /** Buy, pay, refund a part that stays pending, refund the rest at once, then see the first part fail. */
  function OverlapEvents(): seq<Event> {
    [CreateOrder(OrderRequest(7, 1, Wechat, None), 0, 11, 1500, true),
     CallbackSeen(Wechat, 21, 11, 5, 1500),
     PaymentDelivered(PAYMENT, 0),
     RefundIssued(RefundRequest(0, Some(500), 31), 0, RefundPending),
     RefundIssued(RefundRequest(0, None, 32), 1, RefundSuccess),
     RefundResolved(31, false)]
  }

  function OverlapOrder(status: OrderStatus, refunded: int): Order {
    var paid := status != Pending;
    Order(0, 11, 7, 1, Wechat, 1500, status, if paid then Some(5) else None, 0, 900,
          if paid then Some(0) else None, refunded, None)
  }

  function OverlapState(order: Order, paid: bool, refunds: Refunds, numbers: map<Label, RefundId>): State {
    Initial(0).(orders := map[0 := order], byOutTradeNo := map[11 := 0],
                subs := if paid then map[0 := Subscription(0, 7, 0, 1000, true, [0], None)] else map[],
                activeByUser := if paid then map[7 := 0] else map[],
                refunds := refunds, byOutRefundNo := numbers)
  }

  function FirstRefund(status: RefundStatus): Refund {
    Refund(0, 0, 31, 500, status)
  }

  const SEEN: map<EventKey, Time> := map[CallbackKey(Wechat, 21) := 0]

  function Overlap1(): State {
    OverlapState(OverlapOrder(Pending, 0), false, map[], map[])
  }

  function Overlap2(): State {
    Overlap1().(seen := SEEN, inflight := {PAYMENT})
  }

  function Overlap3(): State {
    OverlapState(OverlapOrder(Fulfilled, 0), true, map[], map[]).(seen := SEEN)
  }

  function Overlap4(): State {
    OverlapState(OverlapOrder(Fulfilled, 500), true, map[0 := FirstRefund(RefundPending)], map[31 := 0]).(seen := SEEN)
  }

  function Overlap5(): State {
    OverlapState(OverlapOrder(Refunded, 1500), true,
                 map[0 := FirstRefund(RefundPending), 1 := Refund(1, 0, 32, 1000, RefundSuccess)],
                 map[31 := 0, 32 := 1]).(seen := SEEN)
  }

  function Overlap6(): State {
    OverlapState(OverlapOrder(Refunded, 1000), true,
                 map[0 := FirstRefund(RefundFailed), 1 := Refund(1, 0, 32, 1000, RefundSuccess)],
                 map[31 := 0, 32 := 1]).(seen := SEEN)
  }

  ghost predicate IsStep(s: State, e: Event, s': State) {
    Enabled(SHOP, map[], s, e) && s' == Apply(SHOP, s, e)
  }

  lemma OverlapCreated()
    ensures IsStep(Initial(0), OverlapEvents()[0], Overlap1())
  {
    hide Deliver, Mark, Expire, IssueRefund, ResolveRefund, Remind, Deactivate, SweepSeen, OnChain;
  }

  lemma OverlapSeen()
    ensures IsStep(Overlap1(), OverlapEvents()[1], Overlap2())
  {
    hide Create, Deliver, Expire, IssueRefund, ResolveRefund, Remind, Deactivate, SweepSeen, CanCreate, OnChain;
  }

  lemma OverlapPaid()
    ensures IsStep(Overlap2(), OverlapEvents()[2], Overlap3())
  {
    hide Create, Mark, Expire, IssueRefund, ResolveRefund, Remind, Deactivate, SweepSeen, CanCreate, OnChain;
  }

  lemma OverlapRefundPart()
    ensures IsStep(Overlap3(), OverlapEvents()[3], Overlap4())
  {
    hide Create, Deliver, Mark, Expire, ResolveRefund, Remind, Deactivate, SweepSeen, CanCreate, OnChain;
  }

  lemma OverlapRestAllowed()
    ensures RefundCheck(SHOP, Overlap4(), RefundRequest(0, None, 32)) == Ok(1000)
  {
  }

  lemma OverlapRefundRest()
    ensures IsStep(Overlap4(), OverlapEvents()[4], Overlap5())
  {
    OverlapRestAllowed();
    hide Create, Deliver, Mark, Expire, ResolveRefund, RefundCheck, Remind, Deactivate, SweepSeen, CanCreate, OnChain;
  }

  lemma OverlapAwaits()
    ensures AwaitsResult(Overlap5(), 31) && Overlap5().byOutRefundNo[31] == 0
    ensures Overlap5().refunds[0] == FirstRefund(RefundPending)
    ensures Overlap5().refunds[0 := FirstRefund(RefundFailed)] == Overlap6().refunds
  {
  }

  lemma OverlapReleases()
    ensures 0 in Overlap5().orders
    ensures ResolveOrder(Overlap5().orders[0], FirstRefund(RefundPending), false) == OverlapOrder(Refunded, 1000)
    ensures Overlap5().orders[0 := OverlapOrder(Refunded, 1000)] == Overlap6().orders
  {
  }

  lemma OverlapRest()
    ensures Overlap6() == Overlap5().(refunds := Overlap6().refunds, orders := Overlap6().orders)
  {
  }

  lemma OverlapFailed()
    ensures IsStep(Overlap5(), OverlapEvents()[5], Overlap6())
  {
    OverlapAwaits();
    OverlapReleases();
    OverlapRest();
    hide Create, Deliver, Mark, Expire, IssueRefund, Remind, Deactivate, SweepSeen, CanCreate, OnChain;
    hide Overlap5, Overlap6, AwaitsResult, ResolveOrder, OverlapOrder;
  }

  /**
   Without the discipline a REFUNDED order need not be refunded in full: in this
   run a refund is issued while another one is pending, which then fails.
   */
  lemma OverlappingRefunds() returns (run: seq<State>)
    ensures WellConfigured(SHOP) && IsRun(SHOP, map[], OverlapEvents(), run)
    ensures !OneAtATime(run[4], OverlapEvents()[4])
    ensures 0 in run[6].orders && run[6].orders[0].status == Refunded
    ensures SettledTotal(run[6].refunds, 0) != run[6].orders[0].amount
  {
    hide Enabled, Apply, SettledTotal, Balanced, OverlapState;
    OverlapCreated();
    OverlapSeen();
    OverlapPaid();
    OverlapRefundPart();
    OverlapRefundRest();
    OverlapFailed();
    run := [Initial(0), Overlap1(), Overlap2(), Overlap3(), Overlap4(), Overlap5(), Overlap6()];
    OverlapFacts();
    AlwaysBalanced(SHOP, map[], OverlapEvents(), run, 6);
    FullyLeft(run[6], 0);
  }

  lemma OverlapFacts()
    ensures IsPendingOf(Overlap4().refunds, 0, 0)
    ensures Overlap6().orders == map[0 := OverlapOrder(Refunded, 1000)]
  {
  }
}
