/**
 Settlement of USDT orders from the chain: when one transaction can settle only one
 order although dedupe records are deleted after a while, and why pending orders
 that share an address always differ in amount.
 */
module Settlement {
  import opened Wrappers
  import opened Domain
  import opened UsdtTron
  import opened Protocol

  // ---- claims on a transaction

  /** A polled payment of order `id` by USDT transaction `x` waits for its critical section. */
  ghost predicate InFlight(s: State, id: OrderId, x: TxId) {
    exists p :: p in s.inflight && p.orderId == id && p.payMethod == Usdt && p.txId == x
  }

  /** USDT order `id` was settled by transaction `x`. */
  ghost predicate SettledBy(s: State, id: OrderId, x: TxId) {
    id in s.orders && s.orders[id].payMethod == Usdt && s.orders[id].providerTxnId == Some(x)
  }

  ghost predicate Claims(s: State, id: OrderId, x: TxId) {
    InFlight(s, id, x) || SettledBy(s, id, x)
  }

  /** No transaction has settled two orders. */
  ghost predicate OneOrderEach(s: State) {
    forall a, b, x :: SettledBy(s, a, x) && SettledBy(s, b, x) ==> a == b
  }

  // ---- claims are backed by the chain

  /** The parts of an order that never change. */
  ghost predicate SameIdentity(o: Order, o': Order) {
    && o'.payMethod == o.payMethod && o'.amount == o.amount && o'.createdAt == o.createdAt
    && o'.expiresAt == o.expiresAt && o'.depositAddress == o.depositAddress
  }

  /** An order's deadline, and its own deposit address where orders have one. */
  ghost predicate Dated(cfg: Config, s: State, id: OrderId)
    requires id in s.orders
  {
    var o := s.orders[id];
    && o.expiresAt == o.createdAt + cfg.ttlMs && o.createdAt <= s.now
    && (UsesDepositAddress(cfg, o.payMethod) ==>
          o.depositAddress.Some? && o.depositAddress.value.Derived? &&
          o.depositAddress.value.index <= cfg.hdStartIndex + s.depositCounter)
  }

  ghost predicate HasOwnAddress(cfg: Config, s: State, id: OrderId) {
    id in s.orders && UsesDepositAddress(cfg, s.orders[id].payMethod)
  }

  ghost predicate OwnAddresses(cfg: Config, s: State) {
    forall a, b :: HasOwnAddress(cfg, s, a) && HasOwnAddress(cfg, s, b) && a != b ==>
      s.orders[a].depositAddress != s.orders[b].depositAddress
  }

  ghost predicate Backed(cfg: Config, chain: Chain, s: State, id: OrderId, x: TxId) {
    id in s.orders && s.orders[id].payMethod == Usdt && OnChain(cfg, chain, s.orders[id], x, s.now)
  }

  /** Marks of USDT transactions were made after the transfer. */
  ghost predicate MarkOk(chain: Chain, s: State, x: TxId) {
    TxnKey(Usdt, x) in s.seen ==> x in chain && chain[x].timestamp <= s.seen[TxnKey(Usdt, x)]
  }

  ghost predicate ClaimsOk(cfg: Config, chain: Chain, s: State) {
    && (forall id :: id in s.orders ==> Dated(cfg, s, id))
    && OwnAddresses(cfg, s)
    && (forall id, x :: Claims(s, id, x) ==> Backed(cfg, chain, s, id, x))
    && (forall x :: MarkOk(chain, s, x))
  }

  /** Orders keep their identity, no claim is new, marks of transactions are not made, time does not go back. */
  ghost predicate Settles(s: State, s': State) {
    && s'.orders.Keys == s.orders.Keys && (forall id :: id in s.orders ==> SameIdentity(s.orders[id], s'.orders[id]))
    && (forall id, x :: Claims(s', id, x) ==> Claims(s, id, x))
    && (forall x :: TxnKey(Usdt, x) in s'.seen ==>
          TxnKey(Usdt, x) in s.seen && s'.seen[TxnKey(Usdt, x)] == s.seen[TxnKey(Usdt, x)])
    && s'.now >= s.now && s'.depositCounter >= s.depositCounter
  }

  lemma SettlesKeepsClaims(cfg: Config, chain: Chain, s: State, s': State)
    requires ClaimsOk(cfg, chain, s) && Settles(s, s')
    ensures ClaimsOk(cfg, chain, s')
  {
    hide Claims;
    forall id | id in s'.orders
      ensures Dated(cfg, s', id)
    {
      assert Dated(cfg, s, id);
    }
    forall id, x | Claims(s', id, x)
      ensures Backed(cfg, chain, s', id, x)
    {
      assert Backed(cfg, chain, s, id, x);
    }
    forall x
      ensures MarkOk(chain, s', x)
    {
      assert MarkOk(chain, s, x);
    }
  }

  /** A new order is stored, without a transaction, and with a new address if it has its own. */
  ghost predicate Adds(cfg: Config, s: State, s': State, id: OrderId) {
    && id !in s.orders && id in s'.orders && s'.orders == s.orders[id := s'.orders[id]]
    && s'.orders[id].providerTxnId == None && s'.orders[id].createdAt == s.now && Dated(cfg, s', id)
    && (HasOwnAddress(cfg, s', id) ==>
          s'.orders[id].depositAddress == Some(Derived(cfg.hdStartIndex + s'.depositCounter)) && s'.depositCounter > s.depositCounter)
    && (s'.orders[id].payMethod == Usdt && !cfg.perOrderAddresses ==>
          s'.orders[id].amount !in PendingUsdtAmounts(s.orders))
    && s'.inflight == s.inflight && s'.seen == s.seen && s'.now == s.now && s'.depositCounter >= s.depositCounter
  }

  lemma AddsKeepsClaims(cfg: Config, chain: Chain, s: State, s': State, id: OrderId)
    requires ClaimsOk(cfg, chain, s) && Adds(cfg, s, s', id)
    ensures ClaimsOk(cfg, chain, s')
    ensures forall a, x :: Claims(s', a, x) ==> Claims(s, a, x)
  {
    hide OnChain;
    forall a | a in s'.orders
      ensures Dated(cfg, s', a)
    {
      if a != id {
        assert Dated(cfg, s, a);
      }
    }
    forall a, x | Claims(s', a, x)
      ensures Claims(s, a, x) && Backed(cfg, chain, s', a, x)
    {
      assert Claims(s, a, x);
      assert Backed(cfg, chain, s, a, x);
    }
    forall x
      ensures MarkOk(chain, s', x)
    {
      assert MarkOk(chain, s, x);
    }
    AddsOwnAddress(cfg, s, s', id);
  }

  lemma AddsOwnAddress(cfg: Config, s: State, s': State, id: OrderId)
    requires OwnAddresses(cfg, s) && Adds(cfg, s, s', id) && forall a :: a in s.orders ==> Dated(cfg, s, a)
    ensures OwnAddresses(cfg, s')
  {
    forall a, b | HasOwnAddress(cfg, s', a) && HasOwnAddress(cfg, s', b) && a != b
      ensures s'.orders[a].depositAddress != s'.orders[b].depositAddress
    {
      if a != id {
        assert Dated(cfg, s, a) && HasOwnAddress(cfg, s, a);
      }
      if b != id {
        assert Dated(cfg, s, b) && HasOwnAddress(cfg, s, b);
      }
    }
  }

  lemma CreateAdds(cfg: Config, s: State, req: OrderRequest, id: OrderId, no: Label, amount: nat, accepted: bool)
    requires CanCreate(cfg, s, req, id, amount)
    ensures var s' := Create(cfg, s, req, id, no, amount, accepted);
            Adds(cfg, s, s', id) || (s' == s.(depositCounter := s'.depositCounter) && s'.depositCounter >= s.depositCounter)
  {
    hide IsAmountDue, PendingUsdtAmounts;
    AmountIsFree(cfg, s, req, amount);
  }

  lemma AmountIsFree(cfg: Config, s: State, req: OrderRequest, amount: nat)
    requires req.planId in cfg.plans && IsAmountDue(cfg, s.orders, cfg.plans[req.planId], req.payMethod, amount)
    ensures req.payMethod == Usdt && !cfg.perOrderAddresses ==> amount !in PendingUsdtAmounts(s.orders)
  {
  }

  /** A transaction that was not marked is marked now, and the payment is under way. */
  ghost predicate Marks(s: State, s': State, id: OrderId, x: TxId) {
    && TxnKey(Usdt, x) !in s.seen && s'.orders == s.orders && s'.now == s.now && s'.depositCounter == s.depositCounter
    && s'.seen == s.seen[TxnKey(Usdt, x) := s.now]
    && exists amount :: s'.inflight == s.inflight + {Payment(id, Usdt, x, amount)}
  }

  lemma MarksClaims(s: State, s': State, id: OrderId, x: TxId)
    requires Marks(s, s', id, x)
    ensures forall a, y :: Claims(s', a, y) ==> Claims(s, a, y) || (a == id && y == x)
  {
    forall a, y | Claims(s', a, y)
      ensures Claims(s, a, y) || (a == id && y == x)
    {
      if InFlight(s', a, y) {
        var p :| p in s'.inflight && p.orderId == a && p.payMethod == Usdt && p.txId == y;
        if p in s.inflight {
          assert InFlight(s, a, y);
        }
      } else {
        assert SettledBy(s, a, y);
      }
    }
  }

  lemma MarksKeepsClaims(cfg: Config, chain: Chain, s: State, s': State, id: OrderId, x: TxId)
    requires ClaimsOk(cfg, chain, s) && Marks(s, s', id, x) && Backed(cfg, chain, s, id, x)
    ensures ClaimsOk(cfg, chain, s')
  {
    hide Claims, OnChain;
    MarksClaims(s, s', id, x);
    forall a, y | Claims(s', a, y)
      ensures Backed(cfg, chain, s', a, y)
    {
      assert Backed(cfg, chain, s, a, y);
    }
    assert x in chain && chain[x].timestamp <= s.now by {
      OnChainMeans(cfg, chain, s.orders[id], x, s.now);
    }
    forall y
      ensures MarkOk(chain, s', y)
    {
      assert MarkOk(chain, s, y);
    }
    forall a | a in s'.orders
      ensures Dated(cfg, s', a)
    {
      assert Dated(cfg, s, a);
    }
    assert OwnAddresses(cfg, s') by {
      forall a
        ensures HasOwnAddress(cfg, s', a) <==> HasOwnAddress(cfg, s, a)
      {
      }
    }
  }

  lemma OnChainMeans(cfg: Config, chain: Chain, o: Order, x: TxId, now: Time)
    requires OnChain(cfg, chain, o, x, now)
    ensures x in chain && chain[x].timestamp <= now && o.createdAt <= chain[x].timestamp + CLOCK_TOLERANCE
  {
  }

  // ---- what each step does

  /** The stored transaction of order `id` becomes that of its payment under way. */
  ghost predicate Pays(s: State, s': State, id: OrderId, p: Payment) {
    && p in s.inflight && p.orderId == id && id in s.orders && s.orders[id].status == Pending
    && CurrencyOf(p.payMethod) == CurrencyOf(s.orders[id].payMethod)
    && id in s'.orders && s'.orders == s.orders[id := s'.orders[id]]
    && SameIdentity(s.orders[id], s'.orders[id])
    && s'.orders[id].providerTxnId == Some(p.txId) && s'.orders[id].status != Pending
    && s'.inflight == s.inflight - {p} && s'.seen == s.seen && s'.now == s.now && s'.depositCounter == s.depositCounter
  }

  lemma PaysClaims(s: State, s': State, id: OrderId, p: Payment)
    requires Pays(s, s', id, p)
    ensures Settles(s, s')
  {
    forall a, x | Claims(s', a, x)
      ensures Claims(s, a, x)
    {
      if InFlight(s', a, x) {
        var q :| q in s'.inflight && q.orderId == a && q.payMethod == Usdt && q.txId == x;
        assert q in s.inflight;
        assert InFlight(s, a, x);
      } else if a == id {
        assert p in s.inflight && p.orderId == id && p.payMethod == Usdt && p.txId == x;
        assert InFlight(s, a, x);
      } else {
        assert SettledBy(s, a, x);
      }
    }
  }

  /** No order is settled or revived, no USDT payment gets under way, and only old marks are deleted. */
  ghost predicate Calm(cfg: Config, s: State, s': State) {
    && s'.orders.Keys == s.orders.Keys
    && (forall id :: id in s.orders ==>
          SameIdentity(s.orders[id], s'.orders[id]) && s'.orders[id].providerTxnId == s.orders[id].providerTxnId &&
          (s'.orders[id].status == Pending ==> s.orders[id].status == Pending))
    && (forall p :: p in s'.inflight && p.payMethod == Usdt ==> p in s.inflight)
    && MarksKept(cfg, s, s')
    && s'.now >= s.now && s'.depositCounter >= s.depositCounter
  }

  ghost predicate MarksKept(cfg: Config, s: State, s': State) {
    && (forall x :: TxnKey(Usdt, x) in s'.seen ==>
          TxnKey(Usdt, x) in s.seen && s'.seen[TxnKey(Usdt, x)] == s.seen[TxnKey(Usdt, x)])
    && (forall x :: TxnKey(Usdt, x) in s.seen && TxnKey(Usdt, x) !in s'.seen ==>
          s.seen[TxnKey(Usdt, x)] < s'.now - cfg.retentionMs)
  }

  lemma CalmClaims(cfg: Config, s: State, s': State)
    requires Calm(cfg, s, s')
    ensures Settles(s, s')
    ensures forall id, x :: SettledBy(s', id, x) ==> SettledBy(s, id, x)
  {
    forall a, x | Claims(s', a, x)
      ensures Claims(s, a, x)
    {
      if InFlight(s', a, x) {
        var q :| q in s'.inflight && q.orderId == a && q.payMethod == Usdt && q.txId == x;
        assert q in s.inflight;
        assert InFlight(s, a, x);
      } else {
        assert SettledBy(s, a, x);
      }
    }
  }

  /** What a step does to settlement. */
  ghost predicate Effect(cfg: Config, chain: Chain, s: State, s': State) {
    || Calm(cfg, s, s')
    || (exists id :: Adds(cfg, s, s', id))
    || (exists id, x :: Marks(s, s', id, x) && Backed(cfg, chain, s, id, x))
    || (exists id, p :: Pays(s, s', id, p))
  }

  lemma SameOrdersCalm(cfg: Config, s: State, s': State)
    requires s'.orders == s.orders && s'.now >= s.now && s'.depositCounter >= s.depositCounter
    requires forall p :: p in s'.inflight && p.payMethod == Usdt ==> p in s.inflight
    requires MarksKept(cfg, s, s')
    ensures Calm(cfg, s, s')
  {
    hide MarksKept;
  }

  lemma OneOrderCalm(cfg: Config, s: State, s': State, id: OrderId)
    requires id in s.orders && id in s'.orders && s'.orders == s.orders[id := s'.orders[id]]
    requires SameIdentity(s.orders[id], s'.orders[id]) && s'.orders[id].providerTxnId == s.orders[id].providerTxnId
    requires s'.orders[id].status == Pending ==> s.orders[id].status == Pending
    requires s'.inflight == s.inflight && s'.seen == s.seen && s'.now == s.now && s'.depositCounter == s.depositCounter
    ensures Calm(cfg, s, s')
  {
  }

  /** Marking any other event than a USDT transaction is calm. */
  lemma MarkCalm(cfg: Config, s: State, key: EventKey, p: Option<Payment>)
    requires key.TxnKey? ==> key.m != Usdt || key in s.seen
    requires p.Some? && key !in s.seen ==> p.value.payMethod != Usdt
    ensures Calm(cfg, s, Mark(s, key, p))
  {
    hide Calm;
    SameOrdersCalm(cfg, s, Mark(s, key, p));
  }

  lemma MarkMarks(s: State, id: OrderId, x: TxId, amount: int)
    requires TxnKey(Usdt, x) !in s.seen
    ensures Marks(s, Mark(s, TxnKey(Usdt, x), Some(Payment(id, Usdt, x, amount))), id, x)
  {
    assert Mark(s, TxnKey(Usdt, x), Some(Payment(id, Usdt, x, amount))).inflight == s.inflight + {Payment(id, Usdt, x, amount)};
  }

  lemma PollEffect(cfg: Config, chain: Chain, s: State, id: OrderId, x: TxId, amount: int)
    requires id in s.orders && (s.orders[id].payMethod == Usdt ==> OnChain(cfg, chain, s.orders[id], x, s.now))
    ensures Effect(cfg, chain, s, Mark(s, TxnKey(s.orders[id].payMethod, x), Some(Payment(id, s.orders[id].payMethod, x, amount))))
  {
    hide Calm, OnChain, Adds, Pays, Mark, Marks;
    var m := s.orders[id].payMethod;
    if m == Usdt && TxnKey(Usdt, x) !in s.seen {
      MarkMarks(s, id, x, amount);
      assert Backed(cfg, chain, s, id, x);
    } else {
      MarkCalm(cfg, s, TxnKey(m, x), Some(Payment(id, m, x, amount)));
    }
  }

  lemma DeliverPays(cfg: Config, s: State, p: Payment, newSub: SubId)
    requires p in s.inflight && p.orderId in s.orders && Accepts(s.orders[p.orderId], p)
    ensures Pays(s, Deliver(cfg, s, p, newSub), p.orderId, p)
  {
    hide Grant, Pays;
    var paid := PaidOrder(s.orders[p.orderId], p, s.now);
    var s' := Deliver(cfg, s, p, newSub);
    if s.orders[p.orderId].planId in cfg.plans {
      PaysIs(s, s', p, paid.(status := Fulfilled));
    } else {
      PaysIs(s, s', p, paid);
    }
  }

  lemma PaysIs(s: State, s': State, p: Payment, paid: Order)
    requires p in s.inflight && p.orderId in s.orders && Accepts(s.orders[p.orderId], p)
    requires paid == PaidOrder(s.orders[p.orderId], p, s.now).(status := paid.status) && paid.status != Pending
    requires s'.orders == s.orders[p.orderId := paid]
    requires s'.inflight == s.inflight - {p} && s'.seen == s.seen && s'.now == s.now && s'.depositCounter == s.depositCounter
    ensures Pays(s, s', p.orderId, p)
  {
  }

  lemma DeliverEffect(cfg: Config, chain: Chain, s: State, p: Payment, newSub: SubId)
    requires p in s.inflight
    ensures Effect(cfg, chain, s, Deliver(cfg, s, p, newSub))
  {
    hide Calm, Marks, Adds, Grant, Pays;
    if p.orderId in s.orders && Accepts(s.orders[p.orderId], p) {
      DeliverPays(cfg, s, p, newSub);
    } else {
      SameOrdersCalm(cfg, s, Deliver(cfg, s, p, newSub));
    }
  }

  lemma IssueCalm(cfg: Config, s: State, req: RefundRequest, rid: RefundId, answer: RefundStatus)
    ensures Calm(cfg, s, IssueRefund(cfg, s, req, rid, answer))
  {
    hide Calm;
    var s' := IssueRefund(cfg, s, req, rid, answer);
    if s'.orders != s.orders {
      OneOrderCalm(cfg, s, s', req.orderId);
    } else {
      SameOrdersCalm(cfg, s, s');
    }
  }

  lemma ResolveCalm(cfg: Config, s: State, no: Label, success: bool)
    ensures Calm(cfg, s, ResolveRefund(s, no, success))
  {
    hide Calm;
    var s' := ResolveRefund(s, no, success);
    if AwaitsResult(s, no) && s.refunds[s.byOutRefundNo[no]].orderId in s.orders {
      OneOrderCalm(cfg, s, s', s.refunds[s.byOutRefundNo[no]].orderId);
    } else {
      SameOrdersCalm(cfg, s, s');
    }
  }

  lemma RemindCalm(cfg: Config, s: State, sid: SubId)
    ensures Calm(cfg, s, Remind(cfg, s, sid))
  {
    hide Calm, IndexAfter, DueForReminder;
    SameOrdersCalm(cfg, s, Remind(cfg, s, sid));
  }

  lemma DeactivateCalm(cfg: Config, s: State, sid: SubId)
    ensures Calm(cfg, s, Deactivate(s, sid))
  {
    hide Calm, IndexAfter;
    SameOrdersCalm(cfg, s, Deactivate(s, sid));
  }

  lemma SweepCalm(cfg: Config, s: State)
    ensures Calm(cfg, s, SweepSeen(cfg, s))
  {
    hide Calm;
    SameOrdersCalm(cfg, s, SweepSeen(cfg, s));
  }

  lemma ClockCalm(cfg: Config, s: State, to: Time, p: Payment)
    ensures to >= s.now ==> Calm(cfg, s, s.(now := to))
    ensures Calm(cfg, s, s.(inflight := s.inflight - {p}))
  {
    hide Calm;
    if to >= s.now {
      SameOrdersCalm(cfg, s, s.(now := to));
    }
    SameOrdersCalm(cfg, s, s.(inflight := s.inflight - {p}));
  }

  lemma ExpireCalm(cfg: Config, s: State, id: OrderId)
    ensures Calm(cfg, s, Expire(s, id))
  {
    hide Calm;
    if Expire(s, id) != s {
      OneOrderCalm(cfg, s, Expire(s, id), id);
    } else {
      SameOrdersCalm(cfg, s, s);
    }
  }

  lemma CreateEffect(cfg: Config, chain: Chain, s: State, req: OrderRequest, id: OrderId, no: Label, amount: nat, accepted: bool)
    requires CanCreate(cfg, s, req, id, amount)
    ensures Effect(cfg, chain, s, Create(cfg, s, req, id, no, amount, accepted))
  {
    hide Calm, Adds, Create, CanCreate;
    CreateAdds(cfg, s, req, id, no, amount, accepted);
    var s' := Create(cfg, s, req, id, no, amount, accepted);
    if !Adds(cfg, s, s', id) {
      SameOrdersCalm(cfg, s, s');
    }
  }

  lemma ApplyEffect(cfg: Config, chain: Chain, s: State, e: Event)
    requires Enabled(cfg, chain, s, e)
    ensures Effect(cfg, chain, s, Apply(cfg, s, e))
  {
    hide Calm, Adds, Marks, Pays, Create, Deliver, IssueRefund, ResolveRefund, Expire, CanCreate, OnChain, Effect;
    hide Mark, Remind, Deactivate, SweepSeen;
    match e {
      case Tick(to) => ClockCalm(cfg, s, to, Payment(0, Usdt, 0, 0)); CalmEffect(cfg, chain, s, Apply(cfg, s, e));
      case CreateOrder(req, id, no, amount, accepted) => CreateEffect(cfg, chain, s, req, id, no, amount, accepted);
      case AddressNotDerived => SameOrdersCalm(cfg, s, Apply(cfg, s, e)); CalmEffect(cfg, chain, s, Apply(cfg, s, e));
      case CallbackSeen(m, eventId, _, _, _) =>
        MarkCalm(cfg, s, CallbackKey(m, eventId), CallbackPayment(s, e)); CalmEffect(cfg, chain, s, Apply(cfg, s, e));
      case PollHit(id, x, amount) => PollEffect(cfg, chain, s, id, x, amount);
      case PaymentDelivered(p, newSub) => DeliverEffect(cfg, chain, s, p, newSub);
      case PaymentLost(p) => ClockCalm(cfg, s, s.now, p); CalmEffect(cfg, chain, s, Apply(cfg, s, e));
      case OrderExpired(id) => ExpireCalm(cfg, s, id); CalmEffect(cfg, chain, s, Apply(cfg, s, e));
      case RefundIssued(req, rid, answer) =>
        IssueCalm(cfg, s, req, rid, answer); CalmEffect(cfg, chain, s, Apply(cfg, s, e));
      case RefundCallbackSeen(m, eventId) =>
        MarkCalm(cfg, s, RefundKey(m, eventId), None); CalmEffect(cfg, chain, s, Apply(cfg, s, e));
      case RefundResolved(no, success) => ResolveCalm(cfg, s, no, success); CalmEffect(cfg, chain, s, Apply(cfg, s, e));
      case ReminderPass(sid) => RemindCalm(cfg, s, sid); CalmEffect(cfg, chain, s, Apply(cfg, s, e));
      case ExpiryPass(sid) => DeactivateCalm(cfg, s, sid); CalmEffect(cfg, chain, s, Apply(cfg, s, e));
      case SeenSwept => SweepCalm(cfg, s); CalmEffect(cfg, chain, s, Apply(cfg, s, e));
    }
  }

  lemma CalmEffect(cfg: Config, chain: Chain, s: State, s': State)
    requires Calm(cfg, s, s')
    ensures Effect(cfg, chain, s, s')
  {
  }

  lemma EffectKeepsClaims(cfg: Config, chain: Chain, s: State, s': State)
    requires ClaimsOk(cfg, chain, s) && Effect(cfg, chain, s, s')
    ensures ClaimsOk(cfg, chain, s')
  {
    hide ClaimsOk, Calm, Adds, Marks, Pays, Settles;
    if Calm(cfg, s, s') {
      CalmClaims(cfg, s, s');
      SettlesKeepsClaims(cfg, chain, s, s');
    } else if id :| Adds(cfg, s, s', id) {
      AddsKeepsClaims(cfg, chain, s, s', id);
    } else if id, x :| Marks(s, s', id, x) && Backed(cfg, chain, s, id, x) {
      MarksKeepsClaims(cfg, chain, s, s', id, x);
    } else {
      var id, p :| Pays(s, s', id, p);
      PaysClaims(s, s', id, p);
      SettlesKeepsClaims(cfg, chain, s, s');
    }
  }

  /** In every state of every run each claim on a transaction is backed by a matching transfer. */
  lemma {:induction false} AlwaysClaimsOk(cfg: Config, chain: Chain, events: seq<Event>, run: seq<State>, i: nat)
    requires IsRun(cfg, chain, events, run) && i < |run|
    ensures ClaimsOk(cfg, chain, run[i])
  {
    hide Enabled, Apply, Effect, ClaimsOk;
    if i == 0 {
      InitiallyClaimsOk(cfg, chain, run[0].now);
    } else {
      AlwaysClaimsOk(cfg, chain, events, run, i - 1);
      ApplyEffect(cfg, chain, run[i - 1], events[i - 1]);
      EffectKeepsClaims(cfg, chain, run[i - 1], run[i]);
    }
  }

  lemma InitiallyClaimsOk(cfg: Config, chain: Chain, now: Time)
    ensures ClaimsOk(cfg, chain, Initial(now))
  {
  }

  // ---- orders with addresses of their own

  /** When every order has its own address, a transaction settles at most one order, whatever is forgotten. */
  lemma OwnAddressesNeedNoMemory(cfg: Config, chain: Chain, events: seq<Event>, run: seq<State>, i: nat)
    requires IsRun(cfg, chain, events, run) && i < |run| && cfg.perOrderAddresses
    ensures OneOrderEach(run[i])
  {
    hide IsRun;
    AlwaysClaimsOk(cfg, chain, events, run, i);
    var s := run[i];
    forall a, b, x | SettledBy(s, a, x) && SettledBy(s, b, x)
      ensures a == b
    {
      assert Claims(s, a, x) && Claims(s, b, x);
      assert Backed(cfg, chain, s, a, x) && Backed(cfg, chain, s, b, x);
      assert HasOwnAddress(cfg, s, a) && HasOwnAddress(cfg, s, b);
    }
  }

  // ---- orders that share an address

  /** After this long no pending order can match the transaction any more. */
  function Horizon(cfg: Config, delay: nat): int {
    cfg.ttlMs + CLOCK_TOLERANCE + delay
  }

  ghost predicate Stale(cfg: Config, chain: Chain, delay: nat, x: TxId, now: Time) {
    x in chain && now > chain[x].timestamp + Horizon(cfg, delay)
  }

  /** Overdue orders are expired within `delay`: time does not pass while one is left waiting longer. */
  ghost predicate Timely(delay: nat, s: State, e: Event) {
    e.Tick? ==> forall id :: id in s.orders && s.orders[id].status == Pending ==> e.to <= s.orders[id].expiresAt + delay
  }

  ghost predicate PendingInTime(delay: nat, s: State) {
    forall id :: id in s.orders && s.orders[id].status == Pending ==> s.now <= s.orders[id].expiresAt + delay
  }

  /** A claimed transaction is still marked or stale, and only one order claims one that is not stale. */
  ghost predicate Exclusive(cfg: Config, chain: Chain, delay: nat, s: State) {
    && (forall id, x :: Claims(s, id, x) ==> TxnKey(Usdt, x) in s.seen || Stale(cfg, chain, delay, x, s.now))
    && (forall a, b, x :: Claims(s, a, x) && Claims(s, b, x) && !Stale(cfg, chain, delay, x, s.now) ==> a == b)
    && OneOrderEach(s)
  }

  lemma CalmKeepsExclusive(cfg: Config, chain: Chain, delay: nat, s: State, s': State)
    requires ClaimsOk(cfg, chain, s) && Exclusive(cfg, chain, delay, s) && Calm(cfg, s, s')
    requires cfg.retentionMs >= Horizon(cfg, delay)
    ensures Exclusive(cfg, chain, delay, s')
  {
    hide Claims, Calm, SettledBy;
    CalmClaims(cfg, s, s');
    CalmMarks(cfg, s, s');
    forall id, x | Claims(s', id, x)
      ensures TxnKey(Usdt, x) in s'.seen || Stale(cfg, chain, delay, x, s'.now)
    {
      assert Claims(s, id, x);
      assert MarkOk(chain, s, x);
    }
    forall a, b, x | Claims(s', a, x) && Claims(s', b, x) && !Stale(cfg, chain, delay, x, s'.now)
      ensures a == b
    {
      assert Claims(s, a, x) && Claims(s, b, x);
    }
  }

  lemma CalmMarks(cfg: Config, s: State, s': State)
    requires Calm(cfg, s, s')
    ensures MarksKept(cfg, s, s') && s'.now >= s.now
  {
  }

  lemma AddsKeepsExclusive(cfg: Config, chain: Chain, delay: nat, s: State, s': State, id: OrderId)
    requires ClaimsOk(cfg, chain, s) && Exclusive(cfg, chain, delay, s) && Adds(cfg, s, s', id)
    ensures Exclusive(cfg, chain, delay, s')
  {
    hide Claims;
    AddsKeepsClaims(cfg, chain, s, s', id);
    forall a, x | SettledBy(s', a, x)
      ensures SettledBy(s, a, x)
    {
    }
  }

  lemma MarksKeepsExclusive(cfg: Config, chain: Chain, delay: nat, s: State, s': State, id: OrderId, x: TxId)
    requires Exclusive(cfg, chain, delay, s) && Marks(s, s', id, x)
    ensures Exclusive(cfg, chain, delay, s')
  {
    hide Claims;
    MarksClaims(s, s', id, x);
    forall a, y
      ensures SettledBy(s', a, y) <==> SettledBy(s, a, y)
    {
    }
  }

  lemma PaysKeepsExclusive(cfg: Config, chain: Chain, delay: nat, s: State, s': State, id: OrderId, p: Payment)
    requires ClaimsOk(cfg, chain, s) && Exclusive(cfg, chain, delay, s) && PendingInTime(delay, s) && Pays(s, s', id, p)
    ensures Exclusive(cfg, chain, delay, s')
  {
    PaysClaims(s, s', id, p);
    PaysOnce(cfg, chain, delay, s, s', id, p);
    hide Claims, Pays, SettledBy;
    assert forall a, x :: Claims(s', a, x) ==> Claims(s, a, x);
    PaysMarks(s, s', id, p);
  }

  lemma PaysMarks(s: State, s': State, id: OrderId, p: Payment)
    requires Pays(s, s', id, p)
    ensures s'.seen == s.seen && s'.now == s.now
  {
  }

  /** The order that is paid is the only one with a claim, because a pending order's claim is not stale. */
  lemma PaysOnce(cfg: Config, chain: Chain, delay: nat, s: State, s': State, id: OrderId, p: Payment)
    requires ClaimsOk(cfg, chain, s) && Exclusive(cfg, chain, delay, s) && PendingInTime(delay, s) && Pays(s, s', id, p)
    ensures OneOrderEach(s')
  {
    forall b, x | SettledBy(s', b, x) && b != id
      ensures SettledBy(s, b, x)
    {
    }
    if s.orders[id].payMethod == Usdt {
      var x := p.txId;
      assert InFlight(s, id, x);
      assert Claims(s, id, x) && Backed(cfg, chain, s, id, x) && Dated(cfg, s, id);
      OnChainMeans(cfg, chain, s.orders[id], x, s.now);
      assert !Stale(cfg, chain, delay, x, s.now);
      forall b | SettledBy(s, b, x)
        ensures b == id
      {
        assert Claims(s, b, x);
      }
    }
  }

  lemma EffectKeepsExclusive(cfg: Config, chain: Chain, delay: nat, s: State, s': State)
    requires ClaimsOk(cfg, chain, s) && Exclusive(cfg, chain, delay, s) && PendingInTime(delay, s)
    requires Effect(cfg, chain, s, s') && cfg.retentionMs >= Horizon(cfg, delay)
    ensures Exclusive(cfg, chain, delay, s')
  {
    hide ClaimsOk, Exclusive, PendingInTime, Calm, Adds, Marks, Pays, Backed;
    if Calm(cfg, s, s') {
      CalmKeepsExclusive(cfg, chain, delay, s, s');
    } else if id :| Adds(cfg, s, s', id) {
      AddsKeepsExclusive(cfg, chain, delay, s, s', id);
    } else if id, x :| Marks(s, s', id, x) && Backed(cfg, chain, s, id, x) {
      MarksKeepsExclusive(cfg, chain, delay, s, s', id, x);
    } else {
      var id, p :| Pays(s, s', id, p);
      PaysKeepsExclusive(cfg, chain, delay, s, s', id, p);
    }
  }

  /** A pending order was pending before, or is new. */
  lemma EffectPending(cfg: Config, chain: Chain, s: State, s': State, id: OrderId)
    requires Effect(cfg, chain, s, s') && id in s'.orders && s'.orders[id].status == Pending
    ensures if id in s.orders
            then s.orders[id].status == Pending && s'.orders[id].expiresAt == s.orders[id].expiresAt
            else s'.orders[id].expiresAt == s.now + cfg.ttlMs
  {
    hide MarksKept, Backed;
  }

  lemma ApplyKeepsTime(cfg: Config, chain: Chain, delay: nat, s: State, e: Event)
    requires PendingInTime(delay, s) && Enabled(cfg, chain, s, e) && Timely(delay, s, e)
    ensures PendingInTime(delay, Apply(cfg, s, e))
  {
    if !e.Tick? {
      hide Apply, Enabled, Effect;
      var s' := Apply(cfg, s, e);
      ApplyEffect(cfg, chain, s, e);
      TimeStands(cfg, s, e);
      forall id | id in s'.orders && s'.orders[id].status == Pending
        ensures s'.now <= s'.orders[id].expiresAt + delay
      {
        EffectPending(cfg, chain, s, s', id);
      }
    }
  }

  lemma TimeStands(cfg: Config, s: State, e: Event)
    requires !e.Tick?
    ensures Apply(cfg, s, e).now == s.now
  {
    hide Deliver, IssueRefund, ResolveRefund, Create, Remind, Deactivate, Mark, Expire, SweepSeen;
  }

  ghost predicate TimelyRun(delay: nat, events: seq<Event>, run: seq<State>)
    requires |run| == |events| + 1
  {
    forall i :: 0 <= i < |events| ==> Timely(delay, run[i], events[i])
  }

  /**
   If dedupe records are kept for at least the order lifetime, the clock tolerance
   and the delay in expiring orders together, no transaction ever settles two
   orders, in any run of any length, although records keep being deleted.
   */
  lemma {:induction false} LongMemorySettlesOnce(cfg: Config, chain: Chain, delay: nat, events: seq<Event>, run: seq<State>, i: nat)
    requires IsRun(cfg, chain, events, run) && TimelyRun(delay, events, run) && i < |run|
    requires cfg.retentionMs >= Horizon(cfg, delay)
    ensures Exclusive(cfg, chain, delay, run[i]) && OneOrderEach(run[i]) && PendingInTime(delay, run[i])
  {
    hide Enabled, Apply, Effect, ClaimsOk, Timely, PendingInTime;
    if i == 0 {
      InitiallyExclusive(cfg, chain, delay, run[0].now);
    } else {
      hide Exclusive;
      LongMemorySettlesOnce(cfg, chain, delay, events, run, i - 1);
      AlwaysClaimsOk(cfg, chain, events, run, i - 1);
      ApplyEffect(cfg, chain, run[i - 1], events[i - 1]);
      EffectKeepsExclusive(cfg, chain, delay, run[i - 1], run[i]);
      ApplyKeepsTime(cfg, chain, delay, run[i - 1], events[i - 1]);
    }
    assert Exclusive(cfg, chain, delay, run[i]);
  }

  lemma InitiallyExclusive(cfg: Config, chain: Chain, delay: nat, now: Time)
    ensures Exclusive(cfg, chain, delay, Initial(now)) && PendingInTime(delay, Initial(now))
  {
  }

  // ---- a shorter memory is not enough

  /** A customer buys the plan for USDT on the shared address. */
  function Purchase(plan: PlanId): OrderRequest {
    OrderRequest(0, plan, Usdt, None)
  }

  function Bought(cfg: Config, plan: PlanId, id: OrderId, at: Time): Order
    requires plan in cfg.plans
  {
    Order(id, id, 0, plan, Usdt, cfg.plans[plan].priceUsdtMicro, Pending, None, at, at + cfg.ttlMs, None, 0, None)
  }

  function PaidAtOnce(cfg: Config, plan: PlanId): Order
    requires plan in cfg.plans
  {
    Bought(cfg, plan, 0, 0).(status := Fulfilled, providerTxnId := Some(0), paidAt := Some(0))
  }

  /** The one transfer on chain, made at time 0. */
  function OneTransfer(cfg: Config, plan: PlanId): Chain
    requires plan in cfg.plans
  {
    map[0 := Transfer(0, cfg.receiving, cfg.plans[plan].priceUsdtMicro, 0, true)]
  }

  function Claim(cfg: Config, plan: PlanId, id: OrderId): Payment
    requires plan in cfg.plans
  {
    Payment(id, Usdt, 0, cfg.plans[plan].priceUsdtMicro)
  }

  /** The moment when the mark made at time 0 may be deleted and a second order can exist. */
  function Later(cfg: Config): Time {
    if cfg.retentionMs + 1 < CLOCK_TOLERANCE then CLOCK_TOLERANCE else cfg.retentionMs + 1
  }

  /** Buy, pay and settle; buy again within the tolerance; forget the mark; settle again from the same transfer. */
  function DoubleEvents(cfg: Config, plan: PlanId): seq<Event>
    requires plan in cfg.plans
  {
    var price := cfg.plans[plan].priceUsdtMicro;
    [CreateOrder(Purchase(plan), 0, 0, price, true), PollHit(0, 0, price), PaymentDelivered(Claim(cfg, plan, 0), 0),
     Tick(CLOCK_TOLERANCE), CreateOrder(Purchase(plan), 1, 1, price, true), Tick(Later(cfg)), SeenSwept,
     PollHit(1, 0, price), PaymentDelivered(Claim(cfg, plan, 1), 1)]
  }

  function Double1(cfg: Config, plan: PlanId): State
    requires plan in cfg.plans
  {
    Initial(0).(orders := map[0 := Bought(cfg, plan, 0, 0)], byOutTradeNo := map[0 := 0])
  }

  function Double2(cfg: Config, plan: PlanId): State
    requires plan in cfg.plans
  {
    Double1(cfg, plan).(seen := map[TxnKey(Usdt, 0) := 0], inflight := {Claim(cfg, plan, 0)})
  }

  function Double3(cfg: Config, plan: PlanId): State
    requires plan in cfg.plans
  {
    var sub := Subscription(0, 0, 0, cfg.plans[plan].durationMs, true, [0], None);
    Initial(0).(orders := map[0 := PaidAtOnce(cfg, plan)], byOutTradeNo := map[0 := 0],
                seen := map[TxnKey(Usdt, 0) := 0], subs := map[0 := sub], activeByUser := map[0 := 0])
  }

  function Double5(cfg: Config, plan: PlanId): State
    requires plan in cfg.plans
  {
    Double3(cfg, plan).(orders := map[0 := PaidAtOnce(cfg, plan), 1 := Bought(cfg, plan, 1, CLOCK_TOLERANCE)],
                        byOutTradeNo := map[0 := 0, 1 := 1], now := CLOCK_TOLERANCE)
  }

  function Double8(cfg: Config, plan: PlanId): State
    requires plan in cfg.plans
  {
    Double5(cfg, plan).(now := Later(cfg), seen := map[TxnKey(Usdt, 0) := Later(cfg)], inflight := {Claim(cfg, plan, 1)})
  }

  ghost predicate IsStep(cfg: Config, chain: Chain, s: State, e: Event, s': State) {
    Enabled(cfg, chain, s, e) && s' == Apply(cfg, s, e)
  }

  /** A shared address, USDT enabled, and a plan to buy. */
  ghost predicate SharedShop(cfg: Config, plan: PlanId) {
    !cfg.perOrderAddresses && Usdt in cfg.methods && plan in cfg.plans
  }

  lemma FirstOrder(cfg: Config, plan: PlanId)
    requires SharedShop(cfg, plan)
    ensures IsStep(cfg, OneTransfer(cfg, plan), Initial(0), DoubleEvents(cfg, plan)[0], Double1(cfg, plan))
  {
    hide Deliver, Mark, Expire, IssueRefund, ResolveRefund, Remind, Deactivate, SweepSeen, OnChain;
  }

  lemma FirstPoll(cfg: Config, plan: PlanId)
    requires SharedShop(cfg, plan)
    ensures IsStep(cfg, OneTransfer(cfg, plan), Double1(cfg, plan), DoubleEvents(cfg, plan)[1], Double2(cfg, plan))
  {
    hide Create, Deliver, Expire, IssueRefund, ResolveRefund, Remind, Deactivate, SweepSeen, CanCreate;
  }

  lemma FirstDelivery(cfg: Config, plan: PlanId)
    requires SharedShop(cfg, plan)
    ensures IsStep(cfg, OneTransfer(cfg, plan), Double2(cfg, plan), DoubleEvents(cfg, plan)[2], Double3(cfg, plan))
  {
    hide Create, Mark, Expire, IssueRefund, ResolveRefund, Remind, Deactivate, SweepSeen, CanCreate, OnChain;
  }

  lemma SecondOrder(cfg: Config, plan: PlanId)
    requires SharedShop(cfg, plan)
    ensures IsStep(cfg, OneTransfer(cfg, plan), Double3(cfg, plan).(now := CLOCK_TOLERANCE), DoubleEvents(cfg, plan)[4],
                   Double5(cfg, plan))
  {
    hide Deliver, Mark, Expire, IssueRefund, ResolveRefund, Remind, Deactivate, SweepSeen, OnChain;
    var s := Double3(cfg, plan).(now := CLOCK_TOLERANCE);
    assert PendingUsdtAmounts(s.orders) == {};
  }

  lemma Forget(cfg: Config, plan: PlanId)
    requires SharedShop(cfg, plan)
    ensures IsStep(cfg, OneTransfer(cfg, plan), Double5(cfg, plan).(now := Later(cfg)), DoubleEvents(cfg, plan)[6],
                   Double5(cfg, plan).(now := Later(cfg), seen := map[]))
  {
    hide Create, Deliver, Mark, Expire, IssueRefund, ResolveRefund, Remind, Deactivate, CanCreate, OnChain;
  }

  lemma SecondPoll(cfg: Config, plan: PlanId)
    requires SharedShop(cfg, plan)
    ensures IsStep(cfg, OneTransfer(cfg, plan), Double5(cfg, plan).(now := Later(cfg), seen := map[]),
                   DoubleEvents(cfg, plan)[7], Double8(cfg, plan))
  {
    hide Create, Deliver, Expire, IssueRefund, ResolveRefund, Remind, Deactivate, SweepSeen, CanCreate;
  }

  lemma SecondDelivery(cfg: Config, plan: PlanId)
    requires SharedShop(cfg, plan)
    ensures var e := DoubleEvents(cfg, plan)[8];
            var s' := Apply(cfg, Double8(cfg, plan), e);
            Enabled(cfg, OneTransfer(cfg, plan), Double8(cfg, plan), e) && SettledBy(s', 0, 0) && SettledBy(s', 1, 0)
  {
    hide Create, Mark, Expire, IssueRefund, ResolveRefund, Remind, Deactivate, SweepSeen, CanCreate, OnChain, Grant;
  }

  /**
   Any shorter memory is too short: with a shared address there is a run, with
   overdue orders expired in time, in which one transaction settles two orders.
   */
  lemma ShortMemorySettlesTwice(cfg: Config, plan: PlanId, delay: nat) returns (run: seq<State>)
    requires SharedShop(cfg, plan) && cfg.retentionMs < Horizon(cfg, delay)
    ensures IsRun(cfg, OneTransfer(cfg, plan), DoubleEvents(cfg, plan), run)
    ensures TimelyRun(delay, DoubleEvents(cfg, plan), run)
    ensures !OneOrderEach(run[9])
  {
    hide Enabled, Apply, SettledBy, Double1, Double2, Double3, Double5, Double8;
    var (chain, e) := (OneTransfer(cfg, plan), DoubleEvents(cfg, plan));
    FirstOrder(cfg, plan);
    FirstPoll(cfg, plan);
    FirstDelivery(cfg, plan);
    SecondOrder(cfg, plan);
    Forget(cfg, plan);
    SecondPoll(cfg, plan);
    SecondDelivery(cfg, plan);
    DoubleTicks(cfg, plan, delay);
    var (s3, s5, s8) := (Double3(cfg, plan), Double5(cfg, plan), Double8(cfg, plan));
    run := [Initial(0), Double1(cfg, plan), Double2(cfg, plan), s3, s3.(now := CLOCK_TOLERANCE), s5,
            s5.(now := Later(cfg)), s5.(now := Later(cfg), seen := map[]), s8, Apply(cfg, s8, e[8])];
  }

  lemma DoubleTicks(cfg: Config, plan: PlanId, delay: nat)
    requires SharedShop(cfg, plan) && cfg.retentionMs < Horizon(cfg, delay)
    ensures var (s3, s5, e) := (Double3(cfg, plan), Double5(cfg, plan), DoubleEvents(cfg, plan));
            && IsStep(cfg, OneTransfer(cfg, plan), s3, e[3], s3.(now := CLOCK_TOLERANCE)) && Timely(delay, s3, e[3])
            && IsStep(cfg, OneTransfer(cfg, plan), s5, e[5], s5.(now := Later(cfg))) && Timely(delay, s5, e[5])
  {
  }

  // ---- amounts on a shared address

  ghost predicate PendingUsdt(s: State, id: OrderId) {
    id in s.orders && s.orders[id].payMethod == Usdt && s.orders[id].status == Pending
  }

  ghost predicate AmountsDiffer(s: State) {
    forall a, b :: PendingUsdt(s, a) && PendingUsdt(s, b) && s.orders[a].amount == s.orders[b].amount ==> a == b
  }

  lemma EffectKeepsAmounts(cfg: Config, chain: Chain, s: State, s': State)
    requires AmountsDiffer(s) && Effect(cfg, chain, s, s') && !cfg.perOrderAddresses
    ensures AmountsDiffer(s')
  {
    hide MarksKept, Backed;
    forall a, b | PendingUsdt(s', a) && PendingUsdt(s', b) && s'.orders[a].amount == s'.orders[b].amount
      ensures a == b
    {
      EffectPendingAmount(cfg, chain, s, s', a, b);
      EffectPendingAmount(cfg, chain, s, s', b, a);
    }
  }

  lemma EffectPendingAmount(cfg: Config, chain: Chain, s: State, s': State, a: OrderId, b: OrderId)
    requires Effect(cfg, chain, s, s') && !cfg.perOrderAddresses && PendingUsdt(s', a) && PendingUsdt(s', b)
    ensures a in s.orders ==> PendingUsdt(s, a) && s'.orders[a].amount == s.orders[a].amount
    ensures a !in s.orders && b in s.orders ==> s'.orders[a].amount != s'.orders[b].amount
    ensures a !in s.orders && b !in s.orders ==> a == b
  {
    hide MarksKept, Backed, Dated;
    if id :| Adds(cfg, s, s', id) {
      if a == id && b != id {
        assert s.orders[b].amount in PendingUsdtAmounts(s.orders);
      }
    }
  }

  /** In every state of every run pending USDT orders on a shared address differ in amount. */
  lemma {:induction false} AmountsAlwaysDiffer(cfg: Config, chain: Chain, events: seq<Event>, run: seq<State>, i: nat)
    requires IsRun(cfg, chain, events, run) && i < |run| && !cfg.perOrderAddresses
    ensures AmountsDiffer(run[i])
  {
    hide Enabled, Apply, Effect;
    if i > 0 {
      AmountsAlwaysDiffer(cfg, chain, events, run, i - 1);
      ApplyEffect(cfg, chain, run[i - 1], events[i - 1]);
      EffectKeepsAmounts(cfg, chain, run[i - 1], run[i]);
    }
  }

  /** So a transfer matches at most one pending order. */
  lemma TransferMatchesOne(cfg: Config, chain: Chain, events: seq<Event>, run: seq<State>, i: nat,
                           t: Transfer, a: OrderId, b: OrderId)
    requires IsRun(cfg, chain, events, run) && i < |run| && !cfg.perOrderAddresses
    requires PendingUsdt(run[i], a) && PendingUsdt(run[i], b)
    requires MatchesShared(run[i].orders[a], t, cfg.receiving) && MatchesShared(run[i].orders[b], t, cfg.receiving)
    ensures a == b
  {
    hide IsRun;
    AmountsAlwaysDiffer(cfg, chain, events, run, i);
  }
}
