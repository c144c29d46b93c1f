/**
 The financial-consistency auditor: what it reports, that it reports nothing but
 stale orders in any reachable state, and that healing leaves nothing to report.
 */
module Reconciliation {
  import opened Wrappers
  import opened Domain
  import opened Finite
  import opened Protocol
  import opened RefundLedger
  import opened Access
  import opened Stores
  import opened PaymentService

  datatype Kind = PaidUnfulfilled | FulfilledWithoutPayment | StalePending | OverRefunded | LedgerMismatch

  datatype Discrepancy = Discrepancy(kind: Kind, orderId: OrderId)

  ghost predicate IsDiscrepancy(orders: Orders, refunds: Refunds, now: Time, d: Discrepancy) {
    d.orderId in orders &&
    var o := orders[d.orderId];
    match d.kind
    case PaidUnfulfilled => o.status == Paid && o.paidAt.Some?
    case FulfilledWithoutPayment => Settled(o) && o.paidAt.None?
    case StalePending => o.status == Pending && o.expiresAt <= now
    case OverRefunded => o.refundedAmount > o.amount
    case LedgerMismatch => o.refundedAmount != ReservedTotal(refunds, d.orderId)
  }

  /** What the books should say of an order whose refunds add up to `reserved`. */
  ghost predicate IsSound(o: Order, reserved: int, now: Time) {
    && o.refundedAmount == reserved <= o.amount
    && match o.status
       case Pending => now < o.expiresAt
       case Paid => o.paidAt.None?
       case Fulfilled => o.paidAt.Some?
       case Refunded => o.paidAt.Some?
       case _ => true
  }

  /** The audit is complete: an order has no discrepancy exactly if the books are sound about it. */
  lemma CleanIffSound(orders: Orders, refunds: Refunds, now: Time, id: OrderId)
    requires id in orders
    ensures (forall kind :: !IsDiscrepancy(orders, refunds, now, Discrepancy(kind, id))) <==>
            IsSound(orders[id], ReservedTotal(refunds, id), now)
  {
    hide ReservedTotal;
    var clean := forall kind :: !IsDiscrepancy(orders, refunds, now, Discrepancy(kind, id));
    assert clean ==>
             && !IsDiscrepancy(orders, refunds, now, Discrepancy(PaidUnfulfilled, id))
             && !IsDiscrepancy(orders, refunds, now, Discrepancy(FulfilledWithoutPayment, id))
             && !IsDiscrepancy(orders, refunds, now, Discrepancy(StalePending, id))
             && !IsDiscrepancy(orders, refunds, now, Discrepancy(OverRefunded, id))
             && !IsDiscrepancy(orders, refunds, now, Discrepancy(LedgerMismatch, id));
  }

  // ---- the audit

  function Get(totals: map<OrderId, int>, id: OrderId): int {
    if id in totals then totals[id] else 0
  }

  lemma SumNext(refunds: Refunds, list: seq<RefundId>, i: nat, id: OrderId)
    requires i < |list| && Distinct(list)
    ensures Sum(Elements(list[..i + 1]), Reserved(refunds, id)) ==
            Sum(Elements(list[..i]), Reserved(refunds, id)) + Reserved(refunds, id)(list[i])
  {
    assert list[..i + 1] == list[..i] + [list[i]];
    assert Elements(list[..i + 1]) == Elements(list[..i]) + {list[i]};
    assert list[i] !in Elements(list[..i]);
    SumInsert(Elements(list[..i]), Reserved(refunds, id), list[i]);
  }

  /** Adds up the refunds of each order that have not failed. */
  method ReservedByOrder(refunds: Refunds) returns (totals: map<OrderId, int>)
    ensures forall id :: Get(totals, id) == ReservedTotal(refunds, id)
  {
    hide Sum, Distinct;
    var list := Enumerate(refunds.Keys);
    totals := map[];
    SumNothing(refunds, list);
    for i := 0 to |list|
      invariant forall id :: Get(totals, id) == Sum(Elements(list[..i]), Reserved(refunds, id))
    {
      assert list[i] in Elements(list);
      var r := refunds[list[i]];
      forall id
        ensures Sum(Elements(list[..i + 1]), Reserved(refunds, id)) ==
                Sum(Elements(list[..i]), Reserved(refunds, id)) + if r.orderId == id && r.status != RefundFailed then r.amount else 0
      {
        SumNext(refunds, list, i, id);
      }
      if r.status != RefundFailed {
        totals := totals[r.orderId := Get(totals, r.orderId) + r.amount];
      }
    }
    assert list[..|list|] == list;
  }

  lemma SumNothing(refunds: Refunds, list: seq<RefundId>)
    ensures forall id :: Sum(Elements(list[..0]), Reserved(refunds, id)) == 0
  {
    assert Elements(list[..0]) == {};
  }

  /** Lists what is wrong with one order. */
  method CheckOrder(o: Order, reserved: int, now: Time) returns (found: seq<Discrepancy>)
    ensures Distinct(found)
    ensures forall d :: d in found <==>
              d.orderId == o.id &&
              match d.kind
              case PaidUnfulfilled => o.status == Paid && o.paidAt.Some?
              case FulfilledWithoutPayment => Settled(o) && o.paidAt.None?
              case StalePending => o.status == Pending && o.expiresAt <= now
              case OverRefunded => o.refundedAmount > o.amount
              case LedgerMismatch => o.refundedAmount != reserved
  {
    found := [];
    if o.status == Paid && o.paidAt != None {
      found := found + [Discrepancy(PaidUnfulfilled, o.id)];
    }
    if (o.status == Fulfilled || o.status == Refunded) && o.paidAt == None {
      found := found + [Discrepancy(FulfilledWithoutPayment, o.id)];
    }
    if o.status == Pending && o.expiresAt <= now {
      found := found + [Discrepancy(StalePending, o.id)];
    }
    if o.refundedAmount > o.amount {
      found := found + [Discrepancy(OverRefunded, o.id)];
    }
    if o.refundedAmount != reserved {
      found := found + [Discrepancy(LedgerMismatch, o.id)];
    }
  }

  /** Finds every discrepancy of every order, once. */
  method Audit(orders: Orders, refunds: Refunds, now: Time) returns (found: seq<Discrepancy>)
    requires forall id :: id in orders ==> orders[id].id == id
    ensures Distinct(found)
    ensures forall d :: d in found <==> IsDiscrepancy(orders, refunds, now, d)
  {
    hide ReservedTotal;
    var totals := ReservedByOrder(refunds);
    var list := Enumerate(orders.Keys);
    found := [];
    for i := 0 to |list|
      invariant Distinct(found)
      invariant forall d :: d in found <==> IsDiscrepancy(orders, refunds, now, d) && d.orderId in list[..i]
    {
      assert list[i] in Elements(list);
      var more := CheckOrder(orders[list[i]], Get(totals, list[i]), now);
      assert list[..i + 1] == list[..i] + [list[i]];
      assert forall d :: d in more <==> IsDiscrepancy(orders, refunds, now, d) && d.orderId == list[i];
      assert list[i] !in list[..i];
      DistinctConcat(found, more);
      found := found + more;
    }
    forall id | id in orders
      ensures id in list[..|list|]
    {
      assert id in Elements(list) && list[..|list|] == list;
    }
  }

  // ---- the service

  datatype Report = Report(ranAt: Time, checkedOrders: nat, checkedRefunds: nat, discrepancies: seq<Discrepancy>, healedStaleOrders: nat)

  class ReconciliationService {
    const db: Database
    const payments: PaymentService

    constructor (db: Database, payments: PaymentService)
      ensures this.db == db && this.payments == payments
    {
      this.db, this.payments := db, payments;
    }

    /** Audits the stores and then, if asked to heal, expires the stale orders. */
    method Run(heal: bool, now: Time) returns (report: Report, ghost ids: seq<OrderId>)
      requires db.Valid() && payments.db == db
      modifies db.orders
      ensures db.Valid()
      ensures report.ranAt == now && report.checkedOrders == |old(db.orders.byId)| && report.checkedRefunds == |old(db.refunds.byId)|
      ensures Distinct(report.discrepancies)
      ensures forall d :: d in report.discrepancies <==> IsDiscrepancy(old(db.orders.byId), old(db.refunds.byId), now, d)
      ensures if heal then Elements(ids) == old(db.orders.byId).Keys else ids == []
      ensures db.State(now) == ExpireEach(old(db.State(now)), ids)
      ensures report.healedStaleOrders == if heal then |Stale(old(db.orders.byId), now)| else 0
    {
      hide IsDiscrepancy, ExpireEach, Stale, Distinct, Elements, SubscriptionRepository.Valid, RefundRepository.Valid;
      var orders, refunds := db.orders.byId, db.refunds.byId;
      var found := Audit(orders, refunds, now);
      var healed := 0;
      ids := [];
      ExpireNone(db.State(now));
      if heal {
        healed, ids := payments.ExpireStaleOrders(now);
      }
      report := Report(now, |orders|, |refunds|, found, healed);
    }
  }

  lemma ExpireNone(s: State)
    ensures ExpireEach(s, []) == s
  {
  }

  // ---- reachable states

  ghost predicate Reports(s: State, d: Discrepancy) {
    IsDiscrepancy(s.orders, s.refunds, s.now, d)
  }

  lemma OnlyStale(cfg: Config, s: State, d: Discrepancy)
    requires Balanced(s) && AccessOk(cfg, s)
    ensures Reports(s, d) <==> d.kind == StalePending && IsStale(s.orders, d.orderId, s.now)
  {
    hide ReservedTotal, PlacedOnce, PlacedSettled, IndexOk, NoOverlap, SubOk, RefundsIndexed;
    if d.orderId in s.orders {
      assert OrderBalanced(s.orders[d.orderId], s.refunds, d.orderId);
      assert OrderOk(cfg, s.orders[d.orderId], d.orderId);
    }
  }

  /** In every reachable state the audit reports the stale orders and nothing else. */
  lemma OnlyStaleIsReported(cfg: Config, chain: Chain, events: seq<Event>, run: seq<State>, i: nat, d: Discrepancy)
    requires WellConfigured(cfg) && IsRun(cfg, chain, events, run) && i < |run|
    ensures Reports(run[i], d) <==> d.kind == StalePending && IsStale(run[i].orders, d.orderId, run[i].now)
  {
    hide *;
    AlwaysBalanced(cfg, chain, events, run, i);
    AlwaysAccessOk(cfg, chain, events, run, i);
    OnlyStale(cfg, run[i], d);
  }

  lemma ExpireKeepsAll(cfg: Config, s: State, id: OrderId)
    requires WellConfigured(cfg) && Balanced(s) && AccessOk(cfg, s)
    ensures Balanced(Expire(s, id)) && AccessOk(cfg, Expire(s, id))
  {
    var e := OrderExpired(id);
    assert Enabled(cfg, map[], s, e) && Apply(cfg, s, e) == Expire(s, id);
    hide *;
    ApplyKeepsBalance(cfg, map[], s, e);
    ApplyEffect(cfg, map[], s, e);
    EffectKeepsAccess(cfg, s, Expire(s, id));
  }

  /** Healing keeps what holds of reachable states and leaves none of the listed orders stale. */
  lemma {:induction false} ExpireEachKeeps(cfg: Config, s: State, ids: seq<OrderId>)
    requires WellConfigured(cfg) && Balanced(s) && AccessOk(cfg, s)
    ensures Balanced(ExpireEach(s, ids)) && AccessOk(cfg, ExpireEach(s, ids))
  {
    hide Balanced, AccessOk, WellConfigured, Expire;
    if ids != [] {
      ExpireEachKeeps(cfg, s, ids[..|ids| - 1]);
      ExpireKeepsAll(cfg, ExpireEach(s, ids[..|ids| - 1]), ids[|ids| - 1]);
    }
  }

  /** After a healing run a second run at the same clock value reports nothing at all. */
  lemma HealedIsClean(cfg: Config, chain: Chain, events: seq<Event>, run: seq<State>, i: nat, ids: seq<OrderId>, d: Discrepancy)
    requires WellConfigured(cfg) && IsRun(cfg, chain, events, run) && i < |run| && Elements(ids) == run[i].orders.Keys
    ensures !Reports(ExpireEach(run[i], ids), d)
  {
    NoneStaleAfterPass(run[i].orders, run[i].now, d.orderId);
    ExpireEachIsPass(run[i], ids);
    hide *;
    AlwaysBalanced(cfg, chain, events, run, i);
    AlwaysAccessOk(cfg, chain, events, run, i);
    ExpireEachKeeps(cfg, run[i], ids);
    OnlyStale(cfg, ExpireEach(run[i], ids), d);
  }

  lemma NoneStaleAfterPass(orders: Orders, now: Time, id: OrderId)
    ensures !IsStale(WithStaleExpired(orders, now), id, now)
  {
  }
}
