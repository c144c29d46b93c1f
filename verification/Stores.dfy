/** The in-memory repositories, which change their maps in place, and the object that holds them together. */
module Stores {
  import opened Wrappers
  import opened Domain
  import opened Finite
  import opened Protocol
  import SweepService

  class OrderRepository {
    var byId: map<OrderId, Order>
    var byOutTradeNo: map<Label, OrderId>
    var byIdem: map<Label, OrderId>

    constructor ()
      ensures Valid() && byId == map[] && byOutTradeNo == map[] && byIdem == map[]
    {
      byId, byOutTradeNo, byIdem := map[], map[], map[];
    }

    /** Orders are stored under their own ids, and the indexes point at stored orders. */
    ghost predicate Valid()
      reads this
    {
      && (forall id :: id in byId ==> byId[id].id == id)
      && (forall no :: no in byOutTradeNo ==> byOutTradeNo[no] in byId)
      && (forall key :: key in byIdem ==> byIdem[key] in byId)
    }

    method Create(o: Order, key: Option<Label>) returns (r: Result<Order>)
      requires Valid()
      modifies this
      ensures Valid()
      ensures r == if o.outTradeNo in old(byOutTradeNo) then Err(Duplicate) else Ok(o)
      ensures r.Err? ==> byId == old(byId) && byOutTradeNo == old(byOutTradeNo) && byIdem == old(byIdem)
      ensures r.Ok? ==> byId == old(byId)[o.id := o] && byOutTradeNo == old(byOutTradeNo)[o.outTradeNo := o.id] &&
                        byIdem == if key.Some? then old(byIdem)[key.value := o.id] else old(byIdem)
    {
      if o.outTradeNo in byOutTradeNo {
        return Err(Duplicate);
      }
      byId := byId[o.id := o];
      byOutTradeNo := byOutTradeNo[o.outTradeNo := o.id];
      if key.Some? {
        byIdem := byIdem[key.value := o.id];
      }
      return Ok(o);
    }

    method FindById(id: OrderId) returns (r: Option<Order>)
      requires Valid()
      ensures r.Some? ==> r.value.id == id
      ensures r == if id in byId then Some(byId[id]) else None
    {
      if id in byId {
        return Some(byId[id]);
      }
      return None;
    }

    method FindByOutTradeNo(no: Label) returns (r: Option<Order>)
      requires Valid()
      ensures r.Some? ==> r.value.id in byId && r.value == byId[r.value.id]
      ensures r == if no in byOutTradeNo && byOutTradeNo[no] in byId then Some(byId[byOutTradeNo[no]]) else None
    {
      if no !in byOutTradeNo {
        return None;
      }
      r := FindById(byOutTradeNo[no]);
    }

    method FindByIdempotencyKey(key: Label) returns (r: Option<Order>)
      requires Valid()
      ensures r.Some? ==> r.value.id in byId && r.value == byId[r.value.id]
      ensures r == if key in byIdem && byIdem[key] in byId then Some(byId[byIdem[key]]) else None
    {
      if key !in byIdem {
        return None;
      }
      r := FindById(byIdem[key]);
    }

    /** The amounts of the pending orders of the USDT method. */
    method PendingUsdtAmounts() returns (taken: set<int>)
      ensures taken == Protocol.PendingUsdtAmounts(byId)
    {
      var list := Enumerate(byId.Keys);
      taken := {};
      for i := 0 to |list|
        invariant taken == set k | 0 <= k < i && list[k] in byId && byId[list[k]].payMethod == Usdt &&
                                   byId[list[k]].status == Pending :: byId[list[k]].amount
      {
        assert list[i] in Elements(list);
        var o := byId[list[i]];
        if o.payMethod == Usdt && o.status == Pending {
          taken := taken + {o.amount};
        }
      }
      forall id | id in byId
        ensures exists k :: 0 <= k < |list| && list[k] == id
      {
        assert id in Elements(list);
      }
    }

    method Update(o: Order) returns (r: Result<Order>)
      requires Valid()
      modifies this`byId
      ensures Valid()
      ensures r == if o.id in old(byId) then Ok(o) else Err(NotFound)
      ensures byId == if o.id in old(byId) then old(byId)[o.id := o] else old(byId)
    {
      if o.id !in byId {
        return Err(NotFound);
      }
      byId := byId[o.id := o];
      return Ok(o);
    }
  }

  class RefundRepository {
    var byId: map<RefundId, Refund>
    var byOutRefundNo: map<Label, RefundId>

    constructor ()
      ensures Valid() && byId == map[] && byOutRefundNo == map[]
    {
      byId, byOutRefundNo := map[], map[];
    }

    ghost predicate Valid()
      reads this
    {
      forall rid :: rid in byId ==> byId[rid].id == rid
    }

    method Create(r: Refund) returns (result: Result<Refund>)
      requires Valid()
      modifies this
      ensures Valid()
      ensures result == if r.outRefundNo in old(byOutRefundNo) then Err(Duplicate) else Ok(r)
      ensures result.Err? ==> byId == old(byId) && byOutRefundNo == old(byOutRefundNo)
      ensures result.Ok? ==> byId == old(byId)[r.id := r] && byOutRefundNo == old(byOutRefundNo)[r.outRefundNo := r.id]
    {
      if r.outRefundNo in byOutRefundNo {
        return Err(Duplicate);
      }
      byId := byId[r.id := r];
      byOutRefundNo := byOutRefundNo[r.outRefundNo := r.id];
      return Ok(r);
    }

    method FindByOutRefundNo(no: Label) returns (r: Option<Refund>)
      requires Valid()
      ensures r.Some? ==> no in byOutRefundNo && r.value.id == byOutRefundNo[no]
      ensures r == if no in byOutRefundNo && byOutRefundNo[no] in byId then Some(byId[byOutRefundNo[no]]) else None
    {
      if no in byOutRefundNo && byOutRefundNo[no] in byId {
        return Some(byId[byOutRefundNo[no]]);
      }
      return None;
    }

    method Update(r: Refund)
      requires Valid()
      modifies this`byId
      ensures Valid()
      ensures byId == old(byId)[r.id := r]
    {
      byId := byId[r.id := r];
    }
  }

  class SubscriptionRepository {
    var byId: map<SubId, Subscription>
    var activeByUser: map<UserId, SubId>

    constructor ()
      ensures Valid() && byId == map[] && activeByUser == map[]
    {
      byId, activeByUser := map[], map[];
    }

    /** Records are stored under their own ids, and the index points at records of the user. */
    ghost predicate Valid()
      reads this
    {
      && (forall sid :: sid in byId ==> byId[sid].id == sid)
      && (forall u :: u in activeByUser ==> activeByUser[u] in byId && byId[activeByUser[u]].userId == u)
    }

    /** A stored record keeps its user. */
    ghost predicate FitsIn(sub: Subscription)
      reads this
    {
      sub.id in byId ==> byId[sub.id].userId == sub.userId
    }

    method FindActiveByUser(u: UserId) returns (r: Option<Subscription>)
      requires Valid()
      ensures r.Some? ==> FitsIn(r.value) && r.value.userId == u
      ensures r == if u in activeByUser && activeByUser[u] in byId then Some(byId[activeByUser[u]]) else None
    {
      if u in activeByUser && activeByUser[u] in byId {
        assert byId[activeByUser[u]].id == activeByUser[u];
        return Some(byId[activeByUser[u]]);
      }
      return None;
    }

    method Create(sub: Subscription)
      requires Valid() && FitsIn(sub)
      modifies this
      ensures Valid()
      ensures byId == old(byId)[sub.id := sub]
      ensures activeByUser == if sub.active then old(activeByUser)[sub.userId := sub.id] else old(activeByUser)
    {
      byId := byId[sub.id := sub];
      if sub.active {
        activeByUser := activeByUser[sub.userId := sub.id];
      }
    }

    /** An inactive record leaves the index only if the index points at it. */
    method Update(sub: Subscription)
      requires Valid() && FitsIn(sub)
      modifies this
      ensures Valid()
      ensures byId == old(byId)[sub.id := sub] && activeByUser == IndexAfter(old(activeByUser), sub)
    {
      byId := byId[sub.id := sub];
      if sub.active {
        activeByUser := activeByUser[sub.userId := sub.id];
      } else if sub.userId in activeByUser && activeByUser[sub.userId] == sub.id {
        activeByUser := activeByUser - {sub.userId};
      }
    }

    /** The active records, in some order. */
    method ListActive() returns (list: seq<SubId>)
      ensures Distinct(list) && forall sid :: sid in list <==> sid in byId && byId[sid].active
    {
      var active := set sid | sid in byId && byId[sid].active;
      list := Enumerate(active);
      assert forall sid :: sid in list <==> sid in Elements(list);
    }
  }

  class ProcessedEventStore {
    var seen: map<EventKey, Time>

    constructor ()
      ensures seen == map[]
    {
      seen := map[];
    }

    /** Marks an event; false if it was marked before. */
    method MarkIfNew(key: EventKey, now: Time) returns (isNew: bool)
      modifies this
      ensures isNew <==> key !in old(seen)
      ensures seen == if isNew then old(seen)[key := now] else old(seen)
    {
      if key in seen {
        return false;
      }
      seen := seen[key := now];
      return true;
    }

    /** Forgets the marks from before the retention period and counts them. */
    method Sweep(olderThanMs: nat, now: Time) returns (removed: nat)
      modifies this
      ensures seen == Recent(old(seen), now - olderThanMs)
      ensures removed == |old(seen)| - |seen|
    {
      var cutoff := now - olderThanMs;
      var todo := seen.Keys;
      removed := 0;
      ghost var before := seen;
      while todo != {}
        invariant todo <= before.Keys && seen.Keys <= before.Keys && removed + |seen| == |before|
        invariant forall k :: k in seen ==> seen[k] == before[k]
        invariant forall k :: k in before ==> (k in seen <==> k in todo || before[k] >= cutoff)
      {
        var k :| k in todo;
        if seen[k] < cutoff {
          RemoveOne(seen, k);
          seen := seen - {k};
          removed := removed + 1;
        }
        todo := todo - {k};
      }
    }
  }

  lemma RemoveOne<K, V>(m: map<K, V>, k: K)
    requires k in m
    ensures |m - {k}| == |m| - 1
  {
    assert (m - {k}).Keys == m.Keys - {k};
    assert |m.Keys| == |m| && |(m - {k}).Keys| == |m - {k}|;
  }

  /** The stores that the services share, and what has left the system: payments under way, reminders and notices of expiry sent. */
  class Database {
    const orders: OrderRepository
    const refunds: RefundRepository
    const subs: SubscriptionRepository
    const events: ProcessedEventStore
    const deposits: SweepService.DepositAddressRepository
    var reminders: seq<Reminder>
    var expiries: seq<SubId>
    ghost var inflight: set<Payment>

    constructor ()
      ensures fresh(orders) && fresh(refunds) && fresh(subs) && fresh(events) && fresh(deposits)
      ensures forall now :: State(now) == Initial(now)
      ensures Valid()
    {
      orders := new OrderRepository();
      refunds := new RefundRepository();
      subs := new SubscriptionRepository();
      events := new ProcessedEventStore();
      deposits := new SweepService.DepositAddressRepository();
      reminders, expiries, inflight := [], [], {};
    }

    /** What the stores hold, as a state of the protocol. */
    ghost function State(now: Time): Protocol.State
      reads this, orders, refunds, subs, events, deposits
    {
      Protocol.State(orders.byId, orders.byOutTradeNo, orders.byIdem, refunds.byId, refunds.byOutRefundNo,
                     subs.byId, subs.activeByUser, events.seen, inflight, deposits.counter, reminders, now)
    }

    ghost predicate Valid()
      reads orders, refunds, subs
    {
      orders.Valid() && refunds.Valid() && subs.Valid()
    }
  }
}
