/**
 What becomes of a refund request: when it is accepted, that the record says what the
 provider answered, and where the status of every refund of a run comes from.
 */
module RefundAnswers {
  import opened Domain
  import opened Protocol
  import opened RefundLedger
  import opened OrderBook

  // ---- one request

  /** What the order has left when all of its refunds that have not failed are counted. */
  ghost function Left(s: State, id: OrderId): int
    requires id in s.orders
  {
    s.orders[id].amount - ReservedTotal(s.refunds, id)
  }

  ghost function Asked(s: State, req: RefundRequest): int
    requires req.orderId in s.orders
  {
    match req.amount
    case Some(amount) => amount
    case None => Left(s, req.orderId)
  }

  /** The order has been paid for and not been given back, and the request stays within what is left of it. */
  ghost predicate IsDue(cfg: Config, s: State, req: RefundRequest) {
    && req.orderId in s.orders
    && s.orders[req.orderId].status in {Paid, Fulfilled}
    && 1 <= Asked(s, req) <= Left(s, req.orderId)
    && s.orders[req.orderId].payMethod in cfg.methods
  }

  /** A check succeeds exactly for requests that are due, with the amount asked for, and says what is wrong with others. */
  lemma CheckIs(cfg: Config, s: State, req: RefundRequest)
    requires Balanced(s)
    ensures RefundCheck(cfg, s, req) ==
            if req.orderId !in s.orders then Err(NotFound)
            else if s.orders[req.orderId].status in {Pending, Expired, Cancelled, Refunded, Failed} then Err(InvalidState)
            else if IsDue(cfg, s, req) then Ok(Asked(s, req))
            else Err(InvalidInput)
  {
    hide ReservedTotal, RefundsIndexed;
    if req.orderId in s.orders {
      assert OrderBalanced(s.orders[req.orderId], s.refunds, req.orderId);
    }
  }

  /** USDT refunds are for an operator to pay; of all others the provider's answer is recorded. */
  predicate Answers(m: Method, answer: RefundStatus, recorded: RefundStatus) {
    match m
    case Wechat => recorded == answer
    case Alipay => recorded == answer
    case Usdt => recorded == RefundManual
  }

  /**
   A request that is due, under a new number, is recorded with its order, number and
   amount and with the status that was answered; any other changes nothing.
   */
  lemma RefundRecorded(cfg: Config, s: State, req: RefundRequest, rid: RefundId, answer: RefundStatus)
    requires Balanced(s) && rid !in s.refunds
    ensures var s' := IssueRefund(cfg, s, req, rid, answer);
            if IsDue(cfg, s, req) && (forall k :: k in s.refunds ==> s.refunds[k].outRefundNo != req.outRefundNo) then
              rid in s'.refunds && s'.refunds == s.refunds[rid := s'.refunds[rid]] &&
              var r := s'.refunds[rid];
              && r == Refund(rid, req.orderId, req.outRefundNo, Asked(s, req), r.status)
              && Answers(s.orders[req.orderId].payMethod, answer, r.status)
            else s' == s
  {
    hide ReservedTotal, OrderBalanced;
    CheckIs(cfg, s, req);
    hide RefundCheck, Asked, Left;
    if RefundCheck(cfg, s, req).Ok? {
      CheckedAmount(cfg, s, req);
    }
    NumberTaken(s, req.outRefundNo);
    hide Balanced;
  }

  lemma NumberTaken(s: State, no: Label)
    requires Balanced(s)
    ensures no in s.byOutRefundNo <==> exists k :: k in s.refunds && s.refunds[k].outRefundNo == no
  {
    hide OrderBalanced;
    if no in s.byOutRefundNo {
      var k := s.byOutRefundNo[no];
      assert k in s.refunds && s.refunds[k].outRefundNo == no;
    }
  }

  lemma CheckedAmount(cfg: Config, s: State, req: RefundRequest)
    requires RefundCheck(cfg, s, req).Ok?
    ensures req.orderId in s.orders && RefundAmount(s.orders[req.orderId], req) == RefundCheck(cfg, s, req).value
  {
  }

  /** A request that fails at a provider moves no money: every order stays as it is. */
  lemma FailedRefundMovesNothing(cfg: Config, s: State, req: RefundRequest, rid: RefundId)
    requires req.orderId in s.orders && s.orders[req.orderId].payMethod != Usdt
    ensures IssueRefund(cfg, s, req, rid, RefundFailed).orders == s.orders
  {
  }

  /** A failed refund gives back what it had reserved, in any store, and never more than is reserved. */
  lemma ReleaseIs(o: Order, r: Refund)
    ensures ResolveOrder(o, r, false) ==
            o.(refundedAmount := if r.amount <= o.refundedAmount then o.refundedAmount - r.amount else 0)
  {
  }

  /** A result settles or fails exactly the pending refund of its number. */
  lemma ResultRecorded(s: State, no: Label, success: bool)
    requires Balanced(s)
    ensures var s' := ResolveRefund(s, no, success);
            && s'.refunds.Keys == s.refunds.Keys
            && forall rid :: rid in s.refunds ==>
                 s'.refunds[rid] == if s.refunds[rid].outRefundNo == no && s.refunds[rid].status == RefundPending
                                    then s.refunds[rid].(status := if success then RefundSuccess else RefundFailed)
                                    else s.refunds[rid]
  {
    hide OrderBalanced;
  }

  // ---- every run

  /** Step `j` asked for the refund. */
  ghost predicate RequestedAt(events: seq<Event>, j: nat, r: Refund) {
    && j < |events| && events[j].RefundIssued? && events[j].rid == r.id
    && events[j].rreq.orderId == r.orderId && events[j].rreq.outRefundNo == r.outRefundNo
    && (events[j].rreq.amount.Some? ==> events[j].rreq.amount.value == r.amount)
  }

  /** Step `k` reported the result that the refund has. */
  ghost predicate ResolvedAt(events: seq<Event>, k: nat, r: Refund) {
    && k < |events| && events[k].RefundResolved? && events[k].outRefundNo == r.outRefundNo
    && r.status == (if events[k].success then RefundSuccess else RefundFailed)
  }

  /** The status is the answer that step `j` got, or the result of one that was pending then. */
  ghost predicate StatusFrom(events: seq<Event>, i: nat, j: nat, m: Method, r: Refund) {
    && j < |events| && events[j].RefundIssued?
    && (Answers(m, events[j].answer, r.status) ||
        (m != Usdt && events[j].answer == RefundPending && exists k :: j < k < i && ResolvedAt(events, k, r)))
  }

  ghost predicate Explained(events: seq<Event>, i: nat, s: State, r: Refund) {
    r.orderId in s.orders && exists j :: 0 <= j < i && RequestedAt(events, j, r) && StatusFrom(events, i, j, s.orders[r.orderId].payMethod, r)
  }

  lemma ExplainedStays(events: seq<Event>, i: nat, s: State, s': State, r: Refund)
    requires Explained(events, i, s, r)
    requires r.orderId in s'.orders && s'.orders[r.orderId].payMethod == s.orders[r.orderId].payMethod
    ensures Explained(events, i + 1, s', r)
  {
    hide Answers, RequestedAt, ResolvedAt;
    var m := s.orders[r.orderId].payMethod;
    var j :| 0 <= j < i && RequestedAt(events, j, r) && StatusFrom(events, i, j, m, r);
    assert StatusFrom(events, i + 1, j, m, r);
  }

  lemma ExplainedAfterResult(events: seq<Event>, i: nat, s: State, s': State, r: Refund, r': Refund)
    requires Explained(events, i, s, r) && r.status == RefundPending && r' == r.(status := r'.status)
    requires ResolvedAt(events, i, r')
    requires r.orderId in s'.orders && s'.orders[r.orderId].payMethod == s.orders[r.orderId].payMethod
    ensures Explained(events, i + 1, s', r')
  {
    var m := s.orders[r.orderId].payMethod;
    var j :| 0 <= j < i && RequestedAt(events, j, r) && StatusFrom(events, i, j, m, r);
    assert RequestedAt(events, j, r') && StatusFrom(events, i + 1, j, m, r');
  }

  lemma RefundsStay(cfg: Config, s: State, e: Event)
    requires !e.RefundIssued? && !e.RefundResolved?
    ensures Apply(cfg, s, e).refunds == s.refunds
  {
    hide Create, Deliver, Expire, Mark, SweepSeen, Remind, Deactivate;
  }

  lemma StepExplains(cfg: Config, chain: Chain, events: seq<Event>, i: nat, s: State, rid: RefundId)
    requires Balanced(s) && i < |events| && Enabled(cfg, chain, s, events[i])
    requires rid in s.refunds ==> Explained(events, i, s, s.refunds[rid])
    requires rid in Apply(cfg, s, events[i]).refunds
    ensures Explained(events, i + 1, Apply(cfg, s, events[i]), Apply(cfg, s, events[i]).refunds[rid])
  {
    hide Enabled, Balanced, Explained, IssueRefund, ResolveRefund, Apply, RequestedAt, ResolvedAt;
    var (e, s') := (events[i], Apply(cfg, s, events[i]));
    if rid in s.refunds && s'.refunds[rid] == s.refunds[rid] {
      OrderOfRefund(s, rid);
      StepKeepsTerms(cfg, chain, s, e, s.refunds[rid].orderId);
      ExplainedStays(events, i, s, s', s.refunds[rid]);
    } else if e.RefundIssued? {
      IssueExplains(cfg, chain, events, i, s, rid);
    } else if e.RefundResolved? {
      ResultKeys(cfg, s, e);
      ResultExplains(cfg, chain, events, i, s, rid);
    } else {
      RefundsStay(cfg, s, e);
    }
  }

  lemma ResultKeys(cfg: Config, s: State, e: Event)
    requires e.RefundResolved?
    ensures Apply(cfg, s, e).refunds.Keys == s.refunds.Keys
  {
  }

  lemma OrderOfRefund(s: State, rid: RefundId)
    requires Balanced(s) && rid in s.refunds
    ensures s.refunds[rid].orderId in s.orders
  {
  }

  lemma IssueExplains(cfg: Config, chain: Chain, events: seq<Event>, i: nat, s: State, rid: RefundId)
    requires Balanced(s) && i < |events| && Enabled(cfg, chain, s, events[i]) && events[i].RefundIssued?
    requires rid in Apply(cfg, s, events[i]).refunds
    requires rid in s.refunds ==> Apply(cfg, s, events[i]).refunds[rid] != s.refunds[rid]
    ensures Explained(events, i + 1, Apply(cfg, s, events[i]), Apply(cfg, s, events[i]).refunds[rid])
  {
    hide Balanced, IssueRefund, Left, ReservedTotal;
    var (e, s') := (events[i], Apply(cfg, s, events[i]));
    RefundRecorded(cfg, s, e.rreq, e.rid, e.answer);
    StepKeepsTerms(cfg, chain, s, e, e.rreq.orderId);
    assert RequestedAt(events, i, s'.refunds[rid]);
    assert StatusFrom(events, i + 1, i, s.orders[e.rreq.orderId].payMethod, s'.refunds[rid]);
  }

  lemma ResultExplains(cfg: Config, chain: Chain, events: seq<Event>, i: nat, s: State, rid: RefundId)
    requires Balanced(s) && i < |events| && Enabled(cfg, chain, s, events[i]) && events[i].RefundResolved?
    requires rid in s.refunds && rid in Apply(cfg, s, events[i]).refunds && Explained(events, i, s, s.refunds[rid])
    requires Apply(cfg, s, events[i]).refunds[rid] != s.refunds[rid]
    ensures Explained(events, i + 1, Apply(cfg, s, events[i]), Apply(cfg, s, events[i]).refunds[rid])
  {
    hide Balanced, ResolveRefund, Explained;
    var (e, s') := (events[i], Apply(cfg, s, events[i]));
    ResultRecorded(s, e.outRefundNo, e.success);
    OrderOfRefund(s, rid);
    StepKeepsTerms(cfg, chain, s, e, s.refunds[rid].orderId);
    assert ResolvedAt(events, i, s'.refunds[rid]);
    ExplainedAfterResult(events, i, s, s', s.refunds[rid], s'.refunds[rid]);
  }

  /**
   In every run each refund was asked for by an earlier step, for its order, number and
   amount, and its status is what that step was answered, or what a later step reported
   for it while it was pending; the refunds of USDT orders are always left to an operator.
   */
  lemma {:induction false} RefundsAreExplained(cfg: Config, chain: Chain, events: seq<Event>, run: seq<State>, i: nat, rid: RefundId)
    requires WellConfigured(cfg) && IsRun(cfg, chain, events, run) && i < |run| && rid in run[i].refunds
    ensures Explained(events, i, run[i], run[i].refunds[rid])
  {
    hide Enabled, Apply, Balanced, WellConfigured, Explained;
    if i > 0 {
      AlwaysBalanced(cfg, chain, events, run, i - 1);
      if rid in run[i - 1].refunds {
        RefundsAreExplained(cfg, chain, events, run, i - 1, rid);
      }
      StepExplains(cfg, chain, events, i - 1, run[i - 1], rid);
    }
  }

  /** A refund is left to an operator only if it is of a USDT order, or if the provider said so. */
  lemma ManualIsUsdtOrAnswered(cfg: Config, chain: Chain, events: seq<Event>, run: seq<State>, i: nat, rid: RefundId)
    requires WellConfigured(cfg) && IsRun(cfg, chain, events, run) && i < |run|
    requires rid in run[i].refunds && run[i].refunds[rid].status == RefundManual
    ensures var r := run[i].refunds[rid];
            r.orderId in run[i].orders &&
            (run[i].orders[r.orderId].payMethod == Usdt ||
             exists j :: 0 <= j < i && RequestedAt(events, j, r) && events[j].answer == RefundManual)
  {
    hide IsRun, WellConfigured, RequestedAt;
    RefundsAreExplained(cfg, chain, events, run, i, rid);
  }
}
