/**
 Whose transfer pays for an order on the shared address: a transfer made while one
 order was pending can pay for another of the same amount only if that one was
 created afterwards, within the clock tolerance; and it sometimes does.
 */
module Attribution {
  import opened Wrappers
  import opened Domain
  import opened UsdtTron
  import opened Protocol
  import opened Settlement

  // ---- what becomes of one order

  /** The order keeps its identity and, once it is no longer pending, its transaction. */
  ghost predicate Steady(o: Order, o': Order) {
    SameIdentity(o, o') && (o.status != Pending ==> o'.status != Pending && o'.providerTxnId == o.providerTxnId)
  }

  /** How a later state relates to an earlier one, as far as order `id` goes. */
  ghost predicate Continues(s: State, s': State, id: OrderId) {
    && s'.now >= s.now
    && (id in s.orders ==> id in s'.orders && Steady(s.orders[id], s'.orders[id]))
    && (id !in s.orders && id in s'.orders ==> s'.orders[id].createdAt >= s.now)
  }

  lemma EffectContinues(cfg: Config, chain: Chain, s: State, s': State, id: OrderId)
    requires Effect(cfg, chain, s, s')
    ensures Continues(s, s', id)
  {
    hide MarksKept, Backed, OnChain;
  }

  lemma ContinuesOn(s: State, s': State, s'': State, id: OrderId)
    requires Continues(s, s', id) && Continues(s', s'', id)
    ensures Continues(s, s'', id)
  {
  }

  lemma ContinuesItself(s: State, id: OrderId)
    ensures Continues(s, s, id)
  {
  }

  lemma {:induction false} RunGoesOn(cfg: Config, chain: Chain, events: seq<Event>, run: seq<State>, k: nat, i: nat, id: OrderId)
    requires IsRun(cfg, chain, events, run) && k <= i < |run|
    ensures Continues(run[k], run[i], id)
    decreases i - k
  {
    hide Enabled, Apply, Effect, ClaimsOk, Continues;
    if k == i {
      ContinuesItself(run[k], id);
    } else {
      AlwaysClaimsOk(cfg, chain, events, run, k);
      ApplyEffect(cfg, chain, run[k], events[k]);
      EffectContinues(cfg, chain, run[k], run[k + 1], id);
      RunGoesOn(cfg, chain, events, run, k + 1, i, id);
      ContinuesOn(run[k], run[k + 1], run[i], id);
    }
  }

  // ---- attribution

  /** Transaction `x` was made between states `k` and `k + 1`, all through which USDT order `a` was pending. */
  ghost predicate MadeWhilePending(chain: Chain, run: seq<State>, k: nat, a: OrderId, x: TxId) {
    k + 1 < |run| && x in chain && run[k].now <= chain[x].timestamp <= run[k + 1].now && PendingUsdt(run[k], a)
  }

  /**
   If a transfer made while order `a` was pending settles another order of the same
   amount, which it had not settled before, then that order was created afterwards,
   and no later than the clock tolerance after the transfer.
   */
  lemma PaidAfterwards(cfg: Config, chain: Chain, events: seq<Event>, run: seq<State>, k: nat, i: nat,
                       a: OrderId, b: OrderId, x: TxId)
    requires IsRun(cfg, chain, events, run) && !cfg.perOrderAddresses && k < i < |run|
    requires MadeWhilePending(chain, run, k, a, x) && a != b
    requires SettledBy(run[i], b, x) && !SettledBy(run[k], b, x) && run[i].orders[b].amount == run[k].orders[a].amount
    ensures b !in run[k].orders
    ensures chain[x].timestamp <= run[i].orders[b].createdAt <= chain[x].timestamp + CLOCK_TOLERANCE
  {
    RunGoesOn(cfg, chain, events, run, k, i, b);
    RunGoesOn(cfg, chain, events, run, k + 1, i, b);
    AmountsAlwaysDiffer(cfg, chain, events, run, k);
    AlwaysClaimsOk(cfg, chain, events, run, i);
    StepInTime(cfg, chain, events, run, k, b);
    hide IsRun;
    assert Claims(run[i], b, x);
    assert Backed(cfg, chain, run[i], b, x);
    NotThereYet(run[k], run[i], a, b, x);
  }

  /** A step that moves the clock creates no order. */
  lemma StepInTime(cfg: Config, chain: Chain, events: seq<Event>, run: seq<State>, k: nat, b: OrderId)
    requires IsRun(cfg, chain, events, run) && k + 1 < |run|
    ensures run[k + 1].now == run[k].now || run[k + 1].orders == run[k].orders
  {
    assert run[k + 1] == Apply(cfg, run[k], events[k]);
    if !events[k].Tick? {
      TimeStands(cfg, run[k], events[k]);
    }
  }

  lemma NotThereYet(s: State, s': State, a: OrderId, b: OrderId, x: TxId)
    requires PendingUsdt(s, a) && Continues(s, s', b) && SettledBy(s', b, x) && !SettledBy(s, b, x)
    requires PendingUsdt(s, b) ==> s.orders[a].amount != s.orders[b].amount
    requires s'.orders[b].amount == s.orders[a].amount
    ensures b !in s.orders
  {
  }

  // ---- when the provider takes a transfer for an order

  /** A transfer that has come in by now, of exactly the order's amount. */
  ghost predicate Fits(cfg: Config, chain: Chain, s: State, b: OrderId, x: TxId) {
    && b in s.orders && x in chain && chain[x].confirmed && chain[x].to == cfg.receiving
    && chain[x].value == s.orders[b].amount && chain[x].timestamp <= s.now
  }

  /** A poll may report the transfer for the order if and only if the order is not too young for it. */
  lemma TakenWithinTolerance(cfg: Config, chain: Chain, s: State, b: OrderId, x: TxId)
    requires !cfg.perOrderAddresses && PendingUsdt(s, b) && Fits(cfg, chain, s, b, x)
    ensures Enabled(cfg, chain, s, PollHit(b, x, chain[x].value)) <==>
            s.orders[b].createdAt <= chain[x].timestamp + CLOCK_TOLERANCE
  {
  }

  /** The state after a poll and the delivery of its payment. */
  function Polled(cfg: Config, s: State, b: OrderId, x: TxId, amount: int, newSub: SubId): State
    requires b in s.orders
  {
    Deliver(cfg, Apply(cfg, s, PollHit(b, x, amount)), Payment(b, s.orders[b].payMethod, x, amount), newSub)
  }

  /** And if it is reported and not marked, it settles the order. */
  lemma TakenSettles(cfg: Config, chain: Chain, s: State, b: OrderId, x: TxId, newSub: SubId)
    requires !cfg.perOrderAddresses && PendingUsdt(s, b) && Fits(cfg, chain, s, b, x)
    requires s.orders[b].createdAt <= chain[x].timestamp + CLOCK_TOLERANCE
    requires TxnKey(Usdt, x) !in s.seen && newSub !in s.subs
    ensures var poll := PollHit(b, x, chain[x].value); var s' := Apply(cfg, s, poll);
            && Enabled(cfg, chain, s, poll)
            && Enabled(cfg, chain, s', PaymentDelivered(Payment(b, Usdt, x, chain[x].value), newSub))
            && SettledBy(Polled(cfg, s, b, x, chain[x].value, newSub), b, x)
  {
    hide Deliver, OnChain;
    TakenWithinTolerance(cfg, chain, s, b, x);
    var p := Payment(b, Usdt, x, chain[x].value);
    MarkIs(s, TxnKey(Usdt, x), p);
    DeliverPays(cfg, Mark(s, TxnKey(Usdt, x), Some(p)), p, newSub);
  }

  lemma MarkIs(s: State, key: EventKey, p: Payment)
    requires key !in s.seen
    ensures var s' := Mark(s, key, Some(p)); p in s'.inflight && s'.orders == s.orders && s'.subs == s.subs
  {
  }

  // ---- a transfer that pays for the next customer

  /** The transfer is made when the first order's window has just elapsed, before it is expired. */
  function LateTransfer(cfg: Config, plan: PlanId): Chain
    requires plan in cfg.plans
  {
    map[0 := Transfer(0, cfg.receiving, cfg.plans[plan].priceUsdtMicro, cfg.ttlMs, true)]
  }

  /**
   One customer buys and pays at the last moment; the order expires; `gap` later
   another buys for the same amount, and the order is settled by the transfer.
   */
  function LateEvents(cfg: Config, plan: PlanId, gap: nat): seq<Event>
    requires plan in cfg.plans
  {
    var price := cfg.plans[plan].priceUsdtMicro;
    [CreateOrder(Purchase(plan), 0, 0, price, true), Tick(cfg.ttlMs), OrderExpired(0), Tick(cfg.ttlMs + gap),
     CreateOrder(Purchase(plan), 1, 1, price, true), PollHit(1, 0, price), PaymentDelivered(Claim(cfg, plan, 1), 0)]
  }

  function Late3(cfg: Config, plan: PlanId): State
    requires plan in cfg.plans
  {
    Double1(cfg, plan).(orders := map[0 := Bought(cfg, plan, 0, 0).(status := Expired)], now := cfg.ttlMs)
  }

  function Late5(cfg: Config, plan: PlanId, gap: nat): State
    requires plan in cfg.plans
  {
    Late3(cfg, plan).(orders := map[0 := Bought(cfg, plan, 0, 0).(status := Expired), 1 := Bought(cfg, plan, 1, cfg.ttlMs + gap)],
                      byOutTradeNo := map[0 := 0, 1 := 1], now := cfg.ttlMs + gap)
  }

  lemma LateFirst(cfg: Config, plan: PlanId, gap: nat)
    requires SharedShop(cfg, plan)
    ensures IsStep(cfg, LateTransfer(cfg, plan), Initial(0), LateEvents(cfg, plan, gap)[0], Double1(cfg, plan))
  {
    hide Deliver, Mark, Expire, IssueRefund, ResolveRefund, Remind, Deactivate, SweepSeen, OnChain;
  }

  lemma LateTicks(cfg: Config, plan: PlanId, gap: nat)
    requires SharedShop(cfg, plan)
    ensures var (s, t, e) := (Double1(cfg, plan), Late3(cfg, plan), LateEvents(cfg, plan, gap));
            && IsStep(cfg, LateTransfer(cfg, plan), s, e[1], s.(now := cfg.ttlMs))
            && IsStep(cfg, LateTransfer(cfg, plan), t, e[3], t.(now := cfg.ttlMs + gap))
            && PendingUsdt(s.(now := cfg.ttlMs), 0) && 1 !in s.orders
            && s.orders[0].amount == cfg.plans[plan].priceUsdtMicro
  {
    hide Create, Deliver, Mark, Expire, IssueRefund, ResolveRefund, Remind, Deactivate, SweepSeen, CanCreate, OnChain;
  }

  lemma LateExpiry(cfg: Config, plan: PlanId, gap: nat)
    requires SharedShop(cfg, plan)
    ensures IsStep(cfg, LateTransfer(cfg, plan), Double1(cfg, plan).(now := cfg.ttlMs), LateEvents(cfg, plan, gap)[2], Late3(cfg, plan))
  {
    hide Create, Deliver, Mark, IssueRefund, ResolveRefund, Remind, Deactivate, SweepSeen, CanCreate, OnChain;
  }

  lemma LateSecond(cfg: Config, plan: PlanId, gap: nat)
    requires SharedShop(cfg, plan)
    ensures IsStep(cfg, LateTransfer(cfg, plan), Late3(cfg, plan).(now := cfg.ttlMs + gap), LateEvents(cfg, plan, gap)[4],
                   Late5(cfg, plan, gap))
  {
    hide Deliver, Mark, Expire, IssueRefund, ResolveRefund, Remind, Deactivate, SweepSeen, OnChain;
    assert PendingUsdtAmounts(Late3(cfg, plan).orders) == {};
  }

  lemma LateIsTaken(cfg: Config, plan: PlanId, gap: nat)
    requires SharedShop(cfg, plan) && gap <= CLOCK_TOLERANCE
    ensures var (s, chain, e) := (Late5(cfg, plan, gap), LateTransfer(cfg, plan), LateEvents(cfg, plan, gap));
            && PendingUsdt(s, 1) && Fits(cfg, chain, s, 1, 0) && TxnKey(Usdt, 0) !in s.seen && 0 !in s.subs
            && s.orders[1].createdAt == chain[0].timestamp + gap && s.orders[1].amount == chain[0].value
            && e[5] == PollHit(1, 0, chain[0].value) && e[6] == PaymentDelivered(Payment(1, Usdt, 0, chain[0].value), 0)
  {
  }

  /**
   In a run, transaction `x`, made while order `a` was pending, later settles order `b`
   of the same amount, which was created `gap` after the transfer.
   */
  ghost predicate Misattributed(cfg: Config, chain: Chain, events: seq<Event>, run: seq<State>, k: nat, i: nat,
                                a: OrderId, b: OrderId, x: TxId, gap: int) {
    && IsRun(cfg, chain, events, run) && k < i < |run| && a != b
    && MadeWhilePending(chain, run, k, a, x) && SettledBy(run[i], b, x) && !SettledBy(run[k], b, x)
    && run[i].orders[b].amount == run[k].orders[a].amount && run[i].orders[b].createdAt == chain[x].timestamp + gap
  }

  /** It happens for every gap up to the tolerance, in every shop with a shared address. */
  lemma LateTransferPaysForAnother(cfg: Config, plan: PlanId, gap: nat) returns (run: seq<State>)
    requires SharedShop(cfg, plan) && gap <= CLOCK_TOLERANCE
    ensures |run| == 8 && Misattributed(cfg, LateTransfer(cfg, plan), LateEvents(cfg, plan, gap), run, 2, 7, 0, 1, 0, gap)
  {
    hide Enabled, Apply, Double1, Late3, Late5, PendingUsdt, Fits, SettledBy;
    var (chain, e) := (LateTransfer(cfg, plan), LateEvents(cfg, plan, gap));
    LateFirst(cfg, plan, gap);
    LateTicks(cfg, plan, gap);
    LateExpiry(cfg, plan, gap);
    LateSecond(cfg, plan, gap);
    LateIsTaken(cfg, plan, gap);
    var (s1, s3, s5) := (Double1(cfg, plan), Late3(cfg, plan), Late5(cfg, plan, gap));
    TakenSettles(cfg, chain, s5, 1, 0, 0);
    var s6 := Apply(cfg, s5, e[5]);
    var s7 := Apply(cfg, s6, e[6]);
    LateOrder(cfg, plan, gap);
    run := [Initial(0), s1, s1.(now := cfg.ttlMs), s3, s3.(now := cfg.ttlMs + gap), s5, s6, s7];
  }

  lemma LateOrder(cfg: Config, plan: PlanId, gap: nat)
    requires SharedShop(cfg, plan)
    ensures var s5 := Late5(cfg, plan, gap);
            var s6 := Apply(cfg, s5, LateEvents(cfg, plan, gap)[5]); var s7 := Apply(cfg, s6, LateEvents(cfg, plan, gap)[6]);
            && s7 == Polled(cfg, s5, 1, 0, cfg.plans[plan].priceUsdtMicro, 0)
            && 1 in s7.orders && s7.orders[1].amount == s5.orders[1].amount && s7.orders[1].createdAt == s5.orders[1].createdAt
    ensures Late3(cfg, plan).now == cfg.ttlMs && !SettledBy(Double1(cfg, plan).(now := cfg.ttlMs), 1, 0)
  {
    hide Create, Mark, Expire, IssueRefund, ResolveRefund, Remind, Deactivate, SweepSeen, CanCreate, OnChain, Grant;
  }

  /**
   The exact condition: a transfer made while one order was pending can come to settle
   another of the same amount, created `gap` after it, if and only if the gap is within
   the clock tolerance.
   */
  lemma MisattributedIffWithinTolerance(cfg: Config, plan: PlanId, gap: int)
    requires SharedShop(cfg, plan)
    ensures 0 <= gap <= CLOCK_TOLERANCE <==>
            exists chain, events, run, k, i, a, b, x :: Misattributed(cfg, chain, events, run, k, i, a, b, x, gap)
  {
    hide Misattributed;
    if 0 <= gap <= CLOCK_TOLERANCE {
      var run := LateTransferPaysForAnother(cfg, plan, gap);
    } else if chain, events, run, k, i, a, b, x :| Misattributed(cfg, chain, events, run, k, i, a, b, x, gap) {
      WithinTolerance(cfg, chain, events, run, k, i, a, b, x, gap);
    }
  }

  lemma WithinTolerance(cfg: Config, chain: Chain, events: seq<Event>, run: seq<State>, k: nat, i: nat,
                        a: OrderId, b: OrderId, x: TxId, gap: int)
    requires !cfg.perOrderAddresses && Misattributed(cfg, chain, events, run, k, i, a, b, x, gap)
    ensures 0 <= gap <= CLOCK_TOLERANCE
  {
    PaidAfterwards(cfg, chain, events, run, k, i, a, b, x);
  }
}
