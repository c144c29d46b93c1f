/**
 Access time: every settled order buys its plan's duration exactly once, a user's
 subscriptions never overlap, and the per-user index finds the current one.
 */
module Access {
  import opened Wrappers
  import opened Domain
  import opened Finite
  import opened Protocol
  import opened RefundLedger

  type Subs = map<SubId, Subscription>

  // ---- time bought

  ghost function Duration(cfg: Config, orders: Orders, id: OrderId): int {
    if id in orders && orders[id].planId in cfg.plans then cfg.plans[orders[id].planId].durationMs else 0
  }

  /** The plan durations of a list of orders, added up. */
  ghost function TimeBought(cfg: Config, orders: Orders, ids: seq<OrderId>): int {
    if ids == [] then 0 else TimeBought(cfg, orders, ids[..|ids| - 1]) + Duration(cfg, orders, ids[|ids| - 1])
  }

  lemma TimeBoughtSnoc(cfg: Config, orders: Orders, ids: seq<OrderId>, id: OrderId)
    ensures TimeBought(cfg, orders, ids + [id]) == TimeBought(cfg, orders, ids) + Duration(cfg, orders, id)
  {
    assert (ids + [id])[..|ids|] == ids;
  }

  lemma {:induction false} TimeBoughtSame(cfg: Config, orders: Orders, orders': Orders, ids: seq<OrderId>)
    requires forall i :: 0 <= i < |ids| ==> Duration(cfg, orders, ids[i]) == Duration(cfg, orders', ids[i])
    ensures TimeBought(cfg, orders, ids) == TimeBought(cfg, orders', ids)
  {
    if ids != [] {
      TimeBoughtSame(cfg, orders, orders', ids[..|ids| - 1]);
    }
  }

  // ---- the invariant

  ghost predicate OrderOk(cfg: Config, o: Order, id: OrderId) {
    o.id == id && o.planId in cfg.plans && o.status != Paid && (Settled(o) ==> o.paidAt.Some? && o.providerTxnId.Some?)
  }

  ghost predicate OrdersOk(cfg: Config, s: State) {
    forall id :: id in s.orders ==> OrderOk(cfg, s.orders[id], id)
  }

  /** Subscription `sid` was extended by order `id`, as number `i` of its orders. */
  ghost predicate PlacedAt(subs: Subs, id: OrderId, sid: SubId, i: int) {
    sid in subs && 0 <= i < |subs[sid].orderIds| && subs[sid].orderIds[i] == id
  }

  ghost predicate Placed(subs: Subs, id: OrderId) {
    exists sid, i :: PlacedAt(subs, id, sid, i)
  }

  /** Each order id occurs at most once across all subscriptions. */
  ghost predicate PlacedOnce(subs: Subs) {
    forall id, sid, i, sid', i' :: PlacedAt(subs, id, sid, i) && PlacedAt(subs, id, sid', i') ==> sid == sid' && i == i'
  }

  /** Orders in subscriptions are settled orders of the same user, and every settled order is in one. */
  ghost predicate PlacedSettled(s: State) {
    && (forall id, sid, i :: PlacedAt(s.subs, id, sid, i) ==>
          id in s.orders && Settled(s.orders[id]) && s.orders[id].userId == s.subs[sid].userId)
    && (forall id :: id in s.orders && Settled(s.orders[id]) ==> Placed(s.subs, id))
  }

  ghost predicate SubOk(cfg: Config, s: State, sid: SubId)
    requires sid in s.subs
  {
    var sub := s.subs[sid];
    && sub.id == sid && sub.orderIds != [] && sub.startsAt <= s.now
    && sub.expiresAt - sub.startsAt == TimeBought(cfg, s.orders, sub.orderIds)
    && sub.startsAt < sub.expiresAt
  }

  ghost predicate IsIndexed(s: State, sid: SubId) {
    sid in s.subs && s.subs[sid].userId in s.activeByUser && s.activeByUser[s.subs[sid].userId] == sid
  }

  /** The index points at active subscriptions, and whatever it does not point at has expired. */
  ghost predicate IndexOk(s: State) {
    && (forall u :: u in s.activeByUser ==>
          s.activeByUser[u] in s.subs && s.subs[s.activeByUser[u]].userId == u && s.subs[s.activeByUser[u]].active)
    && (forall sid :: sid in s.subs && !IsIndexed(s, sid) ==> s.subs[sid].expiresAt <= s.now)
  }

  ghost predicate Apart(a: Subscription, b: Subscription) {
    a.expiresAt <= b.startsAt || b.expiresAt <= a.startsAt
  }

  ghost predicate NoOverlap(subs: Subs) {
    forall x, y :: x in subs && y in subs && x != y && subs[x].userId == subs[y].userId ==> Apart(subs[x], subs[y])
  }

  ghost predicate AccessOk(cfg: Config, s: State) {
    && OrdersOk(cfg, s) && PlacedOnce(s.subs) && PlacedSettled(s)
    && (forall sid :: sid in s.subs ==> SubOk(cfg, s, sid))
    && IndexOk(s) && NoOverlap(s.subs)
  }

  // ---- steps that leave subscriptions alone

  /** As far as access is concerned, orders are the same, apart from new unsettled ones. */
  ghost predicate SameOrders(cfg: Config, s: State, s': State) {
    && (forall id :: id in s.orders ==>
          id in s'.orders && s'.orders[id].userId == s.orders[id].userId && s'.orders[id].planId == s.orders[id].planId &&
          (Settled(s'.orders[id]) <==> Settled(s.orders[id])))
    && (forall id :: id in s'.orders && id !in s.orders ==> !Settled(s'.orders[id]))
    && (forall id :: id in s'.orders ==> OrderOk(cfg, s'.orders[id], id))
  }

  lemma SameOrdersKeepAccess(cfg: Config, s: State, s': State)
    requires AccessOk(cfg, s) && SameOrders(cfg, s, s')
    requires s'.subs == s.subs && s'.activeByUser == s.activeByUser && s'.now >= s.now
    ensures AccessOk(cfg, s')
  {
    hide TimeBought, NoOverlap;
    forall sid | sid in s'.subs
      ensures SubOk(cfg, s', sid)
    {
      assert SubOk(cfg, s, sid);
      var ids := s.subs[sid].orderIds;
      forall i | 0 <= i < |ids|
        ensures Duration(cfg, s.orders, ids[i]) == Duration(cfg, s'.orders, ids[i])
      {
        assert PlacedAt(s.subs, ids[i], sid, i);
      }
      TimeBoughtSame(cfg, s.orders, s'.orders, ids);
    }
    assert PlacedSettled(s');
    assert IndexOk(s') by {
      forall sid
        ensures IsIndexed(s', sid) <==> IsIndexed(s, sid)
      {
      }
    }
  }

  /** One order is stored anew; the relevant facts about it are checked on it alone. */
  lemma OneOrderSame(cfg: Config, s: State, s': State, id: OrderId)
    requires OrdersOk(cfg, s) && id in s'.orders && s'.orders == s.orders[id := s'.orders[id]]
    requires OrderOk(cfg, s'.orders[id], id)
    requires if id in s.orders
             then s'.orders[id].userId == s.orders[id].userId && s'.orders[id].planId == s.orders[id].planId &&
                  (Settled(s'.orders[id]) <==> Settled(s.orders[id]))
             else !Settled(s'.orders[id])
    ensures SameOrders(cfg, s, s')
  {
  }

  /** A step that leaves subscriptions, their index and the reminders alone. */
  ghost predicate Quiet(cfg: Config, s: State, s': State) {
    && SameOrders(cfg, s, s') && s'.now >= s.now
    && s'.subs == s.subs && s'.activeByUser == s.activeByUser && s'.reminders == s.reminders
  }

  lemma CreateIsQuiet(cfg: Config, s: State, req: OrderRequest, id: OrderId, no: Label, amount: nat, accepted: bool)
    requires OrdersOk(cfg, s) && CanCreate(cfg, s, req, id, amount)
    ensures Quiet(cfg, s, Create(cfg, s, req, id, no, amount, accepted))
  {
    hide IsAmountDue;
    if no !in s.byOutTradeNo {
      OneOrderSame(cfg, s, Create(cfg, s, req, id, no, amount, accepted), id);
    }
  }

  lemma ExpireIsQuiet(cfg: Config, s: State, id: OrderId)
    requires OrdersOk(cfg, s)
    ensures Quiet(cfg, s, Expire(s, id))
  {
    if Expire(s, id) != s {
      OneOrderSame(cfg, s, Expire(s, id), id);
    }
  }

  lemma IssueIsQuiet(cfg: Config, s: State, req: RefundRequest, rid: RefundId, answer: RefundStatus)
    requires OrdersOk(cfg, s)
    ensures Quiet(cfg, s, IssueRefund(cfg, s, req, rid, answer))
  {
    var s' := IssueRefund(cfg, s, req, rid, answer);
    if s'.orders != s.orders {
      OneOrderSame(cfg, s, s', req.orderId);
    }
  }

  lemma ResolveIsQuiet(cfg: Config, s: State, no: Label, success: bool)
    requires OrdersOk(cfg, s) && Balanced(s)
    ensures Quiet(cfg, s, ResolveRefund(s, no, success))
  {
    hide OrderBalanced;
    if AwaitsResult(s, no) {
      var rid := s.byOutRefundNo[no];
      assert rid in s.refunds;
      var r := s.refunds[rid];
      OneOrderSame(cfg, s, ResolveRefund(s, no, success), r.orderId);
    }
  }

  // ---- fulfilment

  /** Order `id` becomes settled and is appended to subscription `sub`, which is stored and indexed. */
  ghost predicate Fulfils(cfg: Config, s: State, s': State, id: OrderId, sub: Subscription) {
    && id in s.orders && s.orders[id].status == Pending
    && id in s'.orders && s'.orders == s.orders[id := s'.orders[id]]
    && s'.orders[id].userId == s.orders[id].userId == sub.userId && s'.orders[id].planId == s.orders[id].planId
    && OrderOk(cfg, s'.orders[id], id) && Settled(s'.orders[id])
    && s'.subs == s.subs[sub.id := sub]
    && s'.activeByUser == s.activeByUser[sub.userId := sub.id] && s'.now == s.now && s'.reminders == s.reminders
    && sub.orderIds == OrdersBefore(s.subs, sub.id) + [id] && sub.active
    && (if sub.id in s.subs then Extends(cfg, s, id, sub) else Starts(cfg, s, id, sub))
  }

  ghost function OrdersBefore(subs: Subs, sid: SubId): seq<OrderId> {
    if sid in subs then subs[sid].orderIds else []
  }

  /** The user's current subscription goes on for longer. */
  ghost predicate Extends(cfg: Config, s: State, id: OrderId, sub: Subscription)
    requires sub.id in s.subs
  {
    var before := s.subs[sub.id];
    && IsIndexed(s, sub.id) && before.expiresAt > s.now && sub.userId == before.userId && sub.startsAt == before.startsAt
    && sub.expiresAt == before.expiresAt + Duration(cfg, s.orders, id) && sub.notifiedAt == None
  }

  /** The user has no current subscription, and a new one starts now. */
  ghost predicate Starts(cfg: Config, s: State, id: OrderId, sub: Subscription) {
    && sub.startsAt == s.now && sub.expiresAt == s.now + Duration(cfg, s.orders, id) && sub.notifiedAt == None
    && (forall sid :: sid in s.subs && IsIndexed(s, sid) && s.subs[sid].userId == sub.userId ==> s.subs[sid].expiresAt <= s.now)
  }

  /** Fulfilment adds the plan's time behind the current access, or from now on if there is none, and calls for a new reminder. */
  lemma GrantAddsTime(cfg: Config, s: State, o: Order, newSub: SubId)
    requires o.planId in cfg.plans
    ensures var g := Grant(cfg, s, o, newSub); var add := cfg.plans[o.planId].durationMs;
            && g.active && g.notifiedAt.None? && g.orderIds != [] && g.orderIds[|g.orderIds| - 1] == o.id
            && if o.userId in s.activeByUser && s.activeByUser[o.userId] in s.subs && s.now < s.subs[s.activeByUser[o.userId]].expiresAt
               then var current := s.subs[s.activeByUser[o.userId]];
                    g.id == current.id && g.startsAt == current.startsAt && g.expiresAt - current.expiresAt == add
               else g.id == newSub && g.userId == o.userId && g.startsAt == s.now && g.expiresAt - s.now == add
  {
  }

  lemma DeliverFulfils(cfg: Config, s: State, p: Payment, newSub: SubId)
    requires AccessOk(cfg, s) && newSub !in s.subs
    requires p.orderId in s.orders && Accepts(s.orders[p.orderId], p)
    ensures Fulfils(cfg, s, Deliver(cfg, s, p, newSub), p.orderId, Grant(cfg, s, s.orders[p.orderId], newSub))
  {
    hide PlacedOnce, PlacedSettled, NoOverlap, TimeBought;
    var o := s.orders[p.orderId];
    if o.userId in s.activeByUser {
      assert SubOk(cfg, s, s.activeByUser[o.userId]);
    }
  }

  lemma PlacedAfter(s: State, s': State, cfg: Config, id: OrderId, sub: Subscription)
    requires Fulfils(cfg, s, s', id, sub)
    ensures forall x, t, i :: PlacedAt(s'.subs, x, t, i) <==>
              PlacedAt(s.subs, x, t, i) || (x == id && t == sub.id && i == |sub.orderIds| - 1)
  {
  }

  lemma FulfilPlaces(cfg: Config, s: State, s': State, id: OrderId, sub: Subscription)
    requires AccessOk(cfg, s) && Fulfils(cfg, s, s', id, sub)
    ensures PlacedOnce(s'.subs) && PlacedSettled(s')
  {
    hide SubOk, IndexOk, NoOverlap, Starts, OrderOk;
    PlacedAfter(s, s', cfg, id, sub);
    forall t, i
      ensures !PlacedAt(s.subs, id, t, i)
    {
    }
    forall x | x in s'.orders && Settled(s'.orders[x])
      ensures Placed(s'.subs, x)
    {
      if x == id {
        assert PlacedAt(s'.subs, id, sub.id, |sub.orderIds| - 1);
      } else {
        assert Placed(s.subs, x);
        var t, i :| PlacedAt(s.subs, x, t, i);
        assert PlacedAt(s'.subs, x, t, i);
      }
    }
    forall x, t, i | PlacedAt(s'.subs, x, t, i)
      ensures x in s'.orders && Settled(s'.orders[x]) && s'.orders[x].userId == s'.subs[t].userId
    {
      if x != id {
        assert PlacedAt(s.subs, x, t, i);
      }
    }
  }

  lemma FulfilKeepsSubs(cfg: Config, s: State, s': State, id: OrderId, sub: Subscription)
    requires WellConfigured(cfg) && AccessOk(cfg, s) && Fulfils(cfg, s, s', id, sub)
    ensures forall sid :: sid in s'.subs ==> SubOk(cfg, s', sid)
  {
    hide TimeBought, PlacedOnce, PlacedSettled, IndexOk, NoOverlap;
    forall sid | sid in s'.subs
      ensures SubOk(cfg, s', sid)
    {
      if sid in s.subs {
        assert SubOk(cfg, s, sid);
      }
      var ids := OrdersBefore(s.subs, sid);
      TimeBoughtSame(cfg, s.orders, s'.orders, ids);
      TimeBoughtNone(cfg, s.orders);
      if sid == sub.id {
        TimeBoughtSnoc(cfg, s'.orders, ids, id);
      }
    }
  }

  lemma TimeBoughtNone(cfg: Config, orders: Orders)
    ensures TimeBought(cfg, orders, []) == 0
  {
  }

  lemma FulfilKeepsIndex(cfg: Config, s: State, s': State, id: OrderId, sub: Subscription)
    requires AccessOk(cfg, s) && Fulfils(cfg, s, s', id, sub)
    ensures IndexOk(s')
  {
    hide TimeBought, PlacedOnce, PlacedSettled, NoOverlap, OrderOk;
    forall sid | sid in s'.subs && !IsIndexed(s', sid)
      ensures s'.subs[sid].expiresAt <= s'.now
    {
      assert sid in s.subs && s'.subs[sid] == s.subs[sid];
      if IsIndexed(s, sid) {
        assert s.subs[sid].userId == sub.userId;
      }
    }
  }

  lemma FulfilKeepsApart(cfg: Config, s: State, s': State, id: OrderId, sub: Subscription)
    requires AccessOk(cfg, s) && Fulfils(cfg, s, s', id, sub)
    ensures NoOverlap(s'.subs)
  {
    hide TimeBought, PlacedOnce, PlacedSettled, OrderOk;
    forall x | x in s.subs && x != sub.id && s.subs[x].userId == sub.userId
      ensures Apart(s.subs[x], sub)
    {
      assert SubOk(cfg, s, x);
      if sub.id in s.subs {
        assert SubOk(cfg, s, sub.id);
        assert Apart(s.subs[x], s.subs[sub.id]);
      }
    }
  }

  lemma FulfilKeepsAccess(cfg: Config, s: State, s': State, id: OrderId, sub: Subscription)
    requires WellConfigured(cfg) && AccessOk(cfg, s) && Fulfils(cfg, s, s', id, sub)
    ensures AccessOk(cfg, s')
  {
    hide SubOk, IndexOk, NoOverlap, PlacedOnce, PlacedSettled;
    FulfilPlaces(cfg, s, s', id, sub);
    FulfilKeepsSubs(cfg, s, s', id, sub);
    FulfilKeepsIndex(cfg, s, s', id, sub);
    FulfilKeepsApart(cfg, s, s', id, sub);
  }

  // ---- reminders and expiry

  /** A subscription is stored with only its `active` and `notifiedAt` fields changed. */
  ghost predicate Touches(s: State, s': State, sid: SubId) {
    && sid in s.subs && sid in s'.subs && s'.subs == s.subs[sid := s'.subs[sid]]
    && s'.subs[sid] == s.subs[sid].(active := s'.subs[sid].active, notifiedAt := s'.subs[sid].notifiedAt)
    && s'.activeByUser == IndexAfter(s.activeByUser, s'.subs[sid])
    && s'.orders == s.orders && s'.now == s.now
    && ((s'.reminders == s.reminders && s'.subs[sid].notifiedAt == s.subs[sid].notifiedAt) ||
        (s'.reminders == s.reminders + [Reminder(sid, s.subs[sid].expiresAt)] &&
         s.subs[sid].notifiedAt.None? && s'.subs[sid].notifiedAt.Some?))
    && (if s'.subs[sid].active then s.subs[sid].active && s.subs[sid].expiresAt > s.now else s.subs[sid].expiresAt <= s.now)
  }

  lemma TouchKeepsAccess(cfg: Config, s: State, s': State, sid: SubId)
    requires AccessOk(cfg, s) && Touches(s, s', sid)
    ensures AccessOk(cfg, s')
  {
    hide TimeBought, OrderOk;
    assert SubOk(cfg, s, sid);
    forall x, t, i
      ensures PlacedAt(s'.subs, x, t, i) <==> PlacedAt(s.subs, x, t, i)
    {
    }
    TouchKeepsPlacement(cfg, s, s', sid);
    forall t | t in s'.subs
      ensures SubOk(cfg, s', t)
    {
      assert SubOk(cfg, s, t);
    }
    TouchKeepsIndex(cfg, s, s', sid);
  }

  lemma TouchKeepsPlacement(cfg: Config, s: State, s': State, sid: SubId)
    requires AccessOk(cfg, s) && Touches(s, s', sid)
    requires forall x, t, i :: PlacedAt(s'.subs, x, t, i) <==> PlacedAt(s.subs, x, t, i)
    ensures PlacedOnce(s'.subs) && PlacedSettled(s')
  {
    hide SubOk, IndexOk, NoOverlap, OrderOk;
    forall id | id in s'.orders && Settled(s'.orders[id])
      ensures Placed(s'.subs, id)
    {
      assert Placed(s.subs, id);
      var t, i :| PlacedAt(s.subs, id, t, i);
      assert PlacedAt(s'.subs, id, t, i);
    }
    forall x, t, i | PlacedAt(s'.subs, x, t, i)
      ensures x in s'.orders && Settled(s'.orders[x]) && s'.orders[x].userId == s'.subs[t].userId
    {
      assert PlacedAt(s.subs, x, t, i);
    }
  }

  lemma TouchKeepsIndex(cfg: Config, s: State, s': State, sid: SubId)
    requires AccessOk(cfg, s) && Touches(s, s', sid)
    ensures IndexOk(s')
  {
    hide TimeBought, OrderOk, PlacedOnce, PlacedSettled, NoOverlap;
    assert SubOk(cfg, s, sid);
    if s'.subs[sid].active {
      assert IsIndexed(s, sid);
    }
    forall t | t in s'.subs && !IsIndexed(s', t)
      ensures s'.subs[t].expiresAt <= s'.now
    {
    }
  }

  // ---- every run

  /** What a step does to access: nothing, one fulfilment, or one reminder or deactivation. */
  ghost predicate Effect(cfg: Config, s: State, s': State) {
    || Quiet(cfg, s, s')
    || (exists id, sub :: Fulfils(cfg, s, s', id, sub))
    || (exists sid :: Touches(s, s', sid))
  }

  lemma DeliverEffect(cfg: Config, s: State, p: Payment, newSub: SubId)
    requires AccessOk(cfg, s) && newSub !in s.subs
    ensures Effect(cfg, s, Deliver(cfg, s, p, newSub))
  {
    hide SubOk, IndexOk, NoOverlap, PlacedOnce, PlacedSettled, Fulfils, Touches;
    if p.orderId in s.orders && Accepts(s.orders[p.orderId], p) {
      DeliverFulfils(cfg, s, p, newSub);
    } else {
      assert Quiet(cfg, s, Deliver(cfg, s, p, newSub));
    }
  }

  lemma RemindEffect(cfg: Config, s: State, sid: SubId)
    requires AccessOk(cfg, s)
    ensures Effect(cfg, s, Remind(cfg, s, sid))
  {
    hide PlacedOnce, PlacedSettled, NoOverlap, TimeBought, IndexOk, Fulfils;
    if sid in s.subs && DueForReminder(cfg, s, s.subs[sid]) {
      assert SubOk(cfg, s, sid);
      assert Touches(s, Remind(cfg, s, sid), sid);
    } else {
      assert Quiet(cfg, s, s);
    }
  }

  lemma DeactivateEffect(cfg: Config, s: State, sid: SubId)
    requires AccessOk(cfg, s)
    ensures Effect(cfg, s, Deactivate(s, sid))
  {
    hide PlacedOnce, PlacedSettled, NoOverlap, TimeBought, IndexOk, Fulfils;
    if sid in s.subs && s.subs[sid].active && s.subs[sid].expiresAt <= s.now {
      assert SubOk(cfg, s, sid);
      assert Touches(s, Deactivate(s, sid), sid);
    } else {
      assert Quiet(cfg, s, s);
    }
  }

  lemma ApplyEffect(cfg: Config, chain: Chain, s: State, e: Event)
    requires Balanced(s) && AccessOk(cfg, s) && Enabled(cfg, chain, s, e)
    ensures Effect(cfg, s, Apply(cfg, s, e))
  {
    hide Balanced, IssueRefund, ResolveRefund, Create, Deliver, Expire, Remind, Deactivate, CanCreate, Fulfils, Touches, Quiet, Mark, SweepSeen, OnChain;
    hide PlacedOnce, PlacedSettled, SubOk, IndexOk, NoOverlap;
    match e {
      case CreateOrder(req, id, no, amount, accepted) => CreateIsQuiet(cfg, s, req, id, no, amount, accepted);
      case PaymentDelivered(p, newSub) => DeliverEffect(cfg, s, p, newSub);
      case OrderExpired(id) => ExpireIsQuiet(cfg, s, id);
      case RefundIssued(req, rid, answer) => IssueIsQuiet(cfg, s, req, rid, answer);
      case RefundResolved(no, success) => ResolveIsQuiet(cfg, s, no, success);
      case ReminderPass(sid) => RemindEffect(cfg, s, sid);
      case ExpiryPass(sid) => DeactivateEffect(cfg, s, sid);
      case _ => OtherIsQuiet(cfg, s, e);
    }
  }

  lemma OtherIsQuiet(cfg: Config, s: State, e: Event)
    requires OrdersOk(cfg, s) && (e.Tick? ==> e.to >= s.now)
    requires e.Tick? || e.AddressNotDerived? || e.CallbackSeen? || e.PollHit? || e.PaymentLost? || e.RefundCallbackSeen? || e.SeenSwept?
    ensures Quiet(cfg, s, Apply(cfg, s, e))
  {
    hide IssueRefund, ResolveRefund, Create, Deliver, Expire, Remind, Deactivate, Mark, SweepSeen, OrdersOk, Quiet;
    SameIsQuiet(cfg, s, Apply(cfg, s, e));
  }

  lemma SameIsQuiet(cfg: Config, s: State, s': State)
    requires OrdersOk(cfg, s) && s'.orders == s.orders && s'.now >= s.now
    requires s'.subs == s.subs && s'.activeByUser == s.activeByUser && s'.reminders == s.reminders
    ensures Quiet(cfg, s, s')
  {
  }

  lemma EffectKeepsAccess(cfg: Config, s: State, s': State)
    requires WellConfigured(cfg) && AccessOk(cfg, s) && Effect(cfg, s, s')
    ensures AccessOk(cfg, s')
  {
    hide AccessOk, Fulfils, Touches, SameOrders;
    if Quiet(cfg, s, s') {
      SameOrdersKeepAccess(cfg, s, s');
    } else if id, sub :| Fulfils(cfg, s, s', id, sub) {
      FulfilKeepsAccess(cfg, s, s', id, sub);
    } else {
      var sid :| Touches(s, s', sid);
      TouchKeepsAccess(cfg, s, s', sid);
    }
  }

  /** In every state of every run access has been granted exactly as sold. */
  lemma {:induction false} AlwaysAccessOk(cfg: Config, chain: Chain, events: seq<Event>, run: seq<State>, i: nat)
    requires WellConfigured(cfg) && IsRun(cfg, chain, events, run) && i < |run|
    ensures AccessOk(cfg, run[i])
  {
    hide Enabled, Apply, Balanced, AccessOk, WellConfigured, Effect;
    if i == 0 {
      InitiallyAccessOk(cfg, run[0].now);
    } else {
      AlwaysAccessOk(cfg, chain, events, run, i - 1);
      AlwaysBalanced(cfg, chain, events, run, i - 1);
      ApplyEffect(cfg, chain, run[i - 1], events[i - 1]);
      EffectKeepsAccess(cfg, run[i - 1], run[i]);
    }
  }

  lemma InitiallyAccessOk(cfg: Config, now: Time)
    ensures AccessOk(cfg, Initial(now))
  {
  }

  // ---- what it means

  /** A settled order is in exactly one subscription, once; an order that is not settled is in none. */
  lemma SettledExactlyOnce(cfg: Config, chain: Chain, events: seq<Event>, run: seq<State>, i: nat, id: OrderId)
    requires WellConfigured(cfg) && IsRun(cfg, chain, events, run) && i < |run|
    ensures Placed(run[i].subs, id) <==> id in run[i].orders && Settled(run[i].orders[id])
    ensures PlacedOnce(run[i].subs)
  {
    hide IsRun, SubOk, IndexOk, NoOverlap;
    AlwaysAccessOk(cfg, chain, events, run, i);
    if Placed(run[i].subs, id) {
      var sid, k :| PlacedAt(run[i].subs, id, sid, k);
    }
  }

  /** The index agrees with a scan: an active subscription that runs is the indexed one, any other active one has expired. */
  lemma IndexAgreesWithScan(cfg: Config, chain: Chain, events: seq<Event>, run: seq<State>, i: nat, sid: SubId)
    requires WellConfigured(cfg) && IsRun(cfg, chain, events, run) && i < |run|
    requires sid in run[i].subs && run[i].subs[sid].active
    ensures run[i].subs[sid].expiresAt > run[i].now ==> IsIndexed(run[i], sid)
    ensures !IsIndexed(run[i], sid) ==> run[i].subs[sid].expiresAt <= run[i].now
  {
    hide IsRun, SubOk, NoOverlap, PlacedOnce, PlacedSettled;
    AlwaysAccessOk(cfg, chain, events, run, i);
  }

  // ---- conservation of access time per user

  ghost function Granted(subs: Subs, u: UserId): SubId -> int {
    sid => if sid in subs && subs[sid].userId == u then subs[sid].expiresAt - subs[sid].startsAt else 0
  }

  ghost function Sold(cfg: Config, orders: Orders, u: UserId): OrderId -> int {
    id => if id in orders && orders[id].userId == u && Settled(orders[id]) then Duration(cfg, orders, id) else 0
  }

  ghost function TimeGranted(subs: Subs, u: UserId): int {
    Sum(subs.Keys, Granted(subs, u))
  }

  ghost function TimeSold(cfg: Config, orders: Orders, u: UserId): int {
    Sum(orders.Keys, Sold(cfg, orders, u))
  }

  ghost predicate Conserved(cfg: Config, s: State) {
    forall u :: TimeGranted(s.subs, u) == TimeSold(cfg, s.orders, u)
  }

  lemma SoldSame(cfg: Config, s: State, s': State, u: UserId)
    requires SameOrders(cfg, s, s')
    ensures TimeSold(cfg, s'.orders, u) == TimeSold(cfg, s.orders, u)
  {
    var (f, g) := (Sold(cfg, s.orders, u), Sold(cfg, s'.orders, u));
    var added := s'.orders.Keys - s.orders.Keys;
    assert forall id :: id in s.orders.Keys ==> id in s'.orders.Keys;
    assert s'.orders.Keys == s.orders.Keys + added;
    SumMore(s.orders.Keys, added, f, g);
  }

  /** Elements that contribute nothing do not change a sum. */
  lemma {:induction false} SumMore<K(!new)>(keys: set<K>, more: set<K>, f: K -> int, g: K -> int)
    requires keys !! more
    requires forall k :: k in keys ==> f(k) == g(k)
    requires forall k :: k in more ==> g(k) == 0
    ensures Sum(keys + more, g) == Sum(keys, f)
  {
    if more == {} {
      assert keys + more == keys;
      SumSame(keys, f, g);
    } else {
      var k :| k in more;
      SumMore(keys, more - {k}, f, g);
      assert keys + more == (keys + (more - {k})) + {k};
      SumInsert(keys + (more - {k}), g, k);
    }
  }

  lemma GrantedAfter(subs: Subs, sub: Subscription, u: UserId)
    requires sub.id in subs ==> subs[sub.id].userId == sub.userId
    ensures TimeGranted(subs[sub.id := sub], u) ==
            TimeGranted(subs, u) - Granted(subs, u)(sub.id) + (if sub.userId == u then sub.expiresAt - sub.startsAt else 0)
  {
    var after := subs[sub.id := sub];
    var (f, g) := (Granted(subs, u), Granted(after, u));
    if sub.id in subs {
      assert after.Keys == subs.Keys;
      SumChange(subs.Keys, f, g, sub.id);
    } else {
      assert after.Keys == subs.Keys + {sub.id};
      SumGrows(subs.Keys, f, g, sub.id);
    }
  }

  lemma FulfilConserves(cfg: Config, s: State, s': State, id: OrderId, sub: Subscription)
    requires Conserved(cfg, s) && Fulfils(cfg, s, s', id, sub)
    ensures Conserved(cfg, s')
  {
    forall u
      ensures TimeGranted(s'.subs, u) == TimeSold(cfg, s'.orders, u)
    {
      GrantedAfter(s.subs, sub, u);
      SoldAfter(cfg, s, s', id, u);
    }
  }

  lemma SoldAfter(cfg: Config, s: State, s': State, id: OrderId, u: UserId)
    requires id in s.orders && !Settled(s.orders[id]) && id in s'.orders && s'.orders == s.orders[id := s'.orders[id]]
    requires s'.orders[id].userId == s.orders[id].userId && s'.orders[id].planId == s.orders[id].planId
    requires Settled(s'.orders[id])
    ensures TimeSold(cfg, s'.orders, u) ==
            TimeSold(cfg, s.orders, u) + (if s.orders[id].userId == u then Duration(cfg, s.orders, id) else 0)
  {
    assert s'.orders.Keys == s.orders.Keys;
    SumChange(s.orders.Keys, Sold(cfg, s.orders, u), Sold(cfg, s'.orders, u), id);
  }

  lemma TouchConserves(cfg: Config, s: State, s': State, sid: SubId)
    requires Conserved(cfg, s) && Touches(s, s', sid) && s.subs[sid].id == sid
    ensures Conserved(cfg, s')
  {
    forall u
      ensures TimeGranted(s'.subs, u) == TimeSold(cfg, s'.orders, u)
    {
      GrantedAfter(s.subs, s'.subs[sid], u);
    }
  }

  lemma EffectConserves(cfg: Config, s: State, s': State)
    requires AccessOk(cfg, s) && Conserved(cfg, s) && Effect(cfg, s, s')
    ensures Conserved(cfg, s')
  {
    hide PlacedOnce, PlacedSettled, IndexOk, NoOverlap, TimeBought, Fulfils, TimeGranted, TimeSold;
    if Quiet(cfg, s, s') {
      forall u
        ensures TimeGranted(s'.subs, u) == TimeSold(cfg, s'.orders, u)
      {
        SoldSame(cfg, s, s', u);
      }
    } else if id, sub :| Fulfils(cfg, s, s', id, sub) {
      FulfilConserves(cfg, s, s', id, sub);
    } else {
      var sid :| Touches(s, s', sid);
      assert SubOk(cfg, s, sid);
      TouchConserves(cfg, s, s', sid);
    }
  }

  /** In every state of every run, the time granted to each user is the time the user's settled orders bought. */
  lemma {:induction false} TimeIsConserved(cfg: Config, chain: Chain, events: seq<Event>, run: seq<State>, i: nat)
    requires WellConfigured(cfg) && IsRun(cfg, chain, events, run) && i < |run|
    ensures Conserved(cfg, run[i])
  {
    hide Enabled, Apply, Balanced, AccessOk, WellConfigured, Effect, Conserved;
    if i == 0 {
      InitiallyConserved(cfg, run[0].now);
    } else {
      TimeIsConserved(cfg, chain, events, run, i - 1);
      AlwaysAccessOk(cfg, chain, events, run, i - 1);
      AlwaysBalanced(cfg, chain, events, run, i - 1);
      ApplyEffect(cfg, chain, run[i - 1], events[i - 1]);
      EffectConserves(cfg, run[i - 1], run[i]);
    }
  }

  lemma InitiallyConserved(cfg: Config, now: Time)
    ensures Conserved(cfg, Initial(now))
  {
  }

  // ---- reminders

  /** A sent reminder is for an earlier end than the current one, or is remembered as sent. */
  ghost predicate ReminderOk(subs: Subs, r: Reminder) {
    r.subId in subs && (r.expiresAt < subs[r.subId].expiresAt ||
                        (r.expiresAt == subs[r.subId].expiresAt && subs[r.subId].notifiedAt.Some?))
  }

  ghost predicate RemindersOk(s: State) {
    Distinct(s.reminders) && forall i :: 0 <= i < |s.reminders| ==> ReminderOk(s.subs, s.reminders[i])
  }

  lemma EffectKeepsReminders(cfg: Config, s: State, s': State)
    requires WellConfigured(cfg) && AccessOk(cfg, s) && RemindersOk(s) && Effect(cfg, s, s')
    ensures RemindersOk(s')
  {
    hide PlacedOnce, PlacedSettled, IndexOk, NoOverlap, TimeBought;
    if Quiet(cfg, s, s') {
    } else if id, sub :| Fulfils(cfg, s, s', id, sub) {
      assert Duration(cfg, s.orders, id) > 0;
    } else {
      var sid :| Touches(s, s', sid);
      assert SubOk(cfg, s, sid);
    }
  }

  /** At most one expiry reminder is ever sent for each subscription and end of period. */
  lemma {:induction false} RemindedOnce(cfg: Config, chain: Chain, events: seq<Event>, run: seq<State>, i: nat)
    requires WellConfigured(cfg) && IsRun(cfg, chain, events, run) && i < |run|
    ensures RemindersOk(run[i]) && Distinct(run[i].reminders)
  {
    hide Enabled, Apply, Balanced, AccessOk, WellConfigured, Effect;
    if i > 0 {
      hide RemindersOk;
      RemindedOnce(cfg, chain, events, run, i - 1);
      AlwaysAccessOk(cfg, chain, events, run, i - 1);
      AlwaysBalanced(cfg, chain, events, run, i - 1);
      ApplyEffect(cfg, chain, run[i - 1], events[i - 1]);
      EffectKeepsReminders(cfg, run[i - 1], run[i]);
    }
    assert RemindersOk(run[i]);
  }

  // ---- order statuses only move forward

  /** Every order is kept, and its status changed by legal transitions only. */
  ghost predicate MovesForward(s: State, s': State) {
    forall id :: id in s.orders ==> id in s'.orders && Reaches(s.orders[id].status, s'.orders[id].status)
  }

  lemma LegalMoves()
    ensures Reaches(Pending, Fulfilled) && Reaches(Pending, Paid) && Reaches(Pending, Expired)
    ensures Reaches(Fulfilled, Refunded) && Reaches(Paid, Refunded)
    ensures forall x :: Reaches(x, x)
  {
    assert CanTransition(Pending, Paid) && CanTransition(Paid, Fulfilled) && CanTransition(Fulfilled, Refunded);
    assert CanTransition(Paid, Refunded) && CanTransition(Pending, Expired);
    assert Reaches(Fulfilled, Fulfilled) && Reaches(Paid, Fulfilled);
  }

  lemma OneOrderMoves(s: State, s': State, id: OrderId)
    requires id in s'.orders && s'.orders == s.orders[id := s'.orders[id]]
    requires id in s.orders ==> Reaches(s.orders[id].status, s'.orders[id].status)
    ensures MovesForward(s, s')
  {
    LegalMoves();
  }

  lemma CreateMoves(cfg: Config, s: State, req: OrderRequest, id: OrderId, no: Label, amount: nat, accepted: bool)
    requires id !in s.orders
    ensures MovesForward(s, Create(cfg, s, req, id, no, amount, accepted))
  {
    hide MovesForward;
    var s' := Create(cfg, s, req, id, no, amount, accepted);
    if no !in s.byOutTradeNo {
      OneOrderMoves(s, s', id);
    } else {
      OrdersStay(s, s');
    }
  }

  lemma DeliverMoves(cfg: Config, s: State, p: Payment, newSub: SubId)
    ensures MovesForward(s, Deliver(cfg, s, p, newSub))
  {
    hide MovesForward, Deliver, Reaches;
    var s' := Deliver(cfg, s, p, newSub);
    LegalMoves();
    DeliverOrders(cfg, s, p, newSub);
    if s'.orders == s.orders {
      OrdersStay(s, s');
    } else {
      OneOrderMoves(s, s', p.orderId);
    }
  }

  lemma ExpireMoves(s: State, id: OrderId)
    ensures MovesForward(s, Expire(s, id))
  {
    hide MovesForward, Reaches;
    LegalMoves();
    if Expire(s, id) != s {
      OneOrderMoves(s, Expire(s, id), id);
    } else {
      OrdersStay(s, s);
    }
  }

  lemma IssueMoves(cfg: Config, s: State, req: RefundRequest, rid: RefundId, answer: RefundStatus)
    ensures MovesForward(s, IssueRefund(cfg, s, req, rid, answer))
  {
    hide MovesForward, Reaches;
    var s' := IssueRefund(cfg, s, req, rid, answer);
    LegalMoves();
    if s'.orders != s.orders {
      OneOrderMoves(s, s', req.orderId);
    } else {
      OrdersStay(s, s');
    }
  }

  lemma ResolveMoves(s: State, no: Label, success: bool)
    requires Balanced(s)
    ensures MovesForward(s, ResolveRefund(s, no, success))
  {
    hide MovesForward, Reaches, OrderBalanced;
    LegalMoves();
    if AwaitsResult(s, no) {
      var rid := s.byOutRefundNo[no];
      assert rid in s.refunds;
      OneOrderMoves(s, ResolveRefund(s, no, success), s.refunds[rid].orderId);
    } else {
      OrdersStay(s, s);
    }
  }

  lemma ApplyMovesForward(cfg: Config, chain: Chain, s: State, e: Event)
    requires Balanced(s) && Enabled(cfg, chain, s, e)
    ensures MovesForward(s, Apply(cfg, s, e))
  {
    hide Balanced, IssueRefund, ResolveRefund, Create, Deliver, Expire, MovesForward, Remind, Deactivate, Mark, SweepSeen, OnChain;
    match e {
      case CreateOrder(req, id, no, amount, accepted) => CreateMoves(cfg, s, req, id, no, amount, accepted);
      case PaymentDelivered(p, newSub) => DeliverMoves(cfg, s, p, newSub);
      case OrderExpired(id) => ExpireMoves(s, id);
      case RefundIssued(req, rid, answer) => IssueMoves(cfg, s, req, rid, answer);
      case RefundResolved(no, success) => ResolveMoves(s, no, success);
      case _ => OtherSteps(cfg, s, e); OrdersStay(s, Apply(cfg, s, e));
    }
  }

  lemma OrdersStay(s: State, s': State)
    requires s'.orders == s.orders
    ensures MovesForward(s, s')
  {
    LegalMoves();
  }

  /** Along every run orders are never lost and never go back; a terminal order is never revived. */
  lemma {:induction false} NeverRevived(cfg: Config, chain: Chain, events: seq<Event>, run: seq<State>,
                                        i: nat, j: nat, id: OrderId)
    requires WellConfigured(cfg) && IsRun(cfg, chain, events, run) && i <= j < |run| && id in run[i].orders
    ensures id in run[j].orders && Reaches(run[i].orders[id].status, run[j].orders[id].status)
    ensures IsTerminal(run[i].orders[id].status) ==> run[j].orders[id].status == run[i].orders[id].status
    decreases j - i
  {
    hide Enabled, Apply, Balanced, WellConfigured, Reaches;
    if i == j {
      LegalMoves();
    } else {
      AlwaysBalanced(cfg, chain, events, run, i);
      ApplyMovesForward(cfg, chain, run[i], events[i]);
      NeverRevived(cfg, chain, events, run, i + 1, j, id);
      ReachesTransitive(run[i].orders[id].status, run[i + 1].orders[id].status, run[j].orders[id].status);
    }
    if IsTerminal(run[i].orders[id].status) {
      TerminalReachesItself(run[i].orders[id].status, run[j].orders[id].status);
    }
  }
}
