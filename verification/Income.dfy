/**
 Where the money of the USDT sales came from: distinct confirmed transfers to the
 shop's own addresses, which together cover what was sold.
 */
module Income {
  import opened Wrappers
  import opened Domain
  import opened Finite
  import opened Protocol
  import opened RefundLedger
  import opened Access
  import opened Settlement

  /** What a settled USDT order was sold for. */
  ghost function Sale(orders: Orders): OrderId -> int {
    id => if id in orders && orders[id].payMethod == Usdt && Settled(orders[id]) then orders[id].amount else 0
  }

  /** The address is the shop's: the shared one, or the deposit address of one of its orders. */
  ghost predicate IsOurs(cfg: Config, orders: Orders, to: Address) {
    if cfg.perOrderAddresses then exists id :: id in orders && orders[id].depositAddress == Some(to)
    else to == cfg.receiving
  }

  /** What a confirmed transfer has brought to the shop so far. */
  ghost function Received(cfg: Config, orders: Orders, chain: Chain, now: Time): TxId -> int {
    x => if x in chain && chain[x].confirmed && chain[x].timestamp <= now && IsOurs(cfg, orders, chain[x].to)
         then chain[x].value else 0
  }

  ghost function UsdtSold(orders: Orders): set<OrderId> {
    set id | id in orders && orders[id].payMethod == Usdt && Settled(orders[id])
  }

  ghost function PaidBy(orders: Orders): OrderId -> TxId {
    id => if id in orders && orders[id].providerTxnId.Some? then orders[id].providerTxnId.value else 0
  }

  /** The transfer paid exactly what the order asked for on the shared address, or enough on the order's own. */
  ghost predicate PaysFor(cfg: Config, o: Order, t: Transfer) {
    && t.confirmed
    && if cfg.perOrderAddresses then o.depositAddress == Some(t.to) && t.value >= o.amount
       else t.to == cfg.receiving && t.value == o.amount
  }

  /** A poll takes exactly the transfers that pay for the order and are no more than five minutes older than it. */
  lemma TransferTaken(cfg: Config, chain: Chain, o: Order, x: TxId, now: Time)
    requires x in chain && chain[x].timestamp <= now
    ensures OnChain(cfg, chain, o, x, now) <==> PaysFor(cfg, o, chain[x]) && o.createdAt - chain[x].timestamp <= 5 * 60 * 1000
  {
  }

  /** The transaction of a settled USDT order is a confirmed transfer of its money to its address. */
  lemma SoldIsReceived(cfg: Config, chain: Chain, s: State, id: OrderId)
    requires AccessOk(cfg, s) && ClaimsOk(cfg, chain, s) && id in UsdtSold(s.orders)
    ensures var x := PaidBy(s.orders)(id);
            && SettledBy(s, id, x) && x in chain && chain[x].timestamp <= s.now && PaysFor(cfg, s.orders[id], chain[x])
            && IsOurs(cfg, s.orders, chain[x].to)
  {
    hide PlacedOnce, PlacedSettled, IndexOk, NoOverlap, SubOk, Dated, OwnAddresses, MarkOk, InFlight;
    assert OrderOk(cfg, s.orders[id], id);
    var x := PaidBy(s.orders)(id);
    assert Claims(s, id, x);
    assert Backed(cfg, chain, s, id, x);
  }

  lemma SalesArePaired(cfg: Config, chain: Chain, s: State)
    requires AccessOk(cfg, s) && ClaimsOk(cfg, chain, s) && OneOrderEach(s)
    ensures Paired(UsdtSold(s.orders), Sale(s.orders), chain.Keys, Received(cfg, s.orders, chain, s.now), PaidBy(s.orders))
  {
    hide AccessOk, ClaimsOk, IsOurs;
    var f, g, h := Sale(s.orders), Received(cfg, s.orders, chain, s.now), PaidBy(s.orders);
    forall x | x in chain.Keys
      ensures g(x) >= 0
    {
    }
    forall id | id in UsdtSold(s.orders)
      ensures h(id) in chain.Keys && f(id) <= g(h(id))
    {
      SoldIsReceived(cfg, chain, s, id);
    }
    forall a, b | a in UsdtSold(s.orders) && b in UsdtSold(s.orders) && h(a) == h(b)
      ensures a == b
    {
      SoldIsReceived(cfg, chain, s, a);
      SoldIsReceived(cfg, chain, s, b);
    }
  }

  lemma SalesCovered(cfg: Config, chain: Chain, s: State)
    requires AccessOk(cfg, s) && ClaimsOk(cfg, chain, s) && OneOrderEach(s)
    ensures Sum(s.orders.Keys, Sale(s.orders)) <= Sum(chain.Keys, Received(cfg, s.orders, chain, s.now))
  {
    SalesArePaired(cfg, chain, s);
    hide AccessOk, ClaimsOk, OneOrderEach, Paired, IsOurs;
    SumRest(s.orders.Keys, UsdtSold(s.orders), Sale(s.orders));
    SumPaired(UsdtSold(s.orders), Sale(s.orders), chain.Keys, Received(cfg, s.orders, chain, s.now), PaidBy(s.orders));
  }

  /**
   In every run, with an address per order or with long enough retention, the amounts
   of all settled USDT orders together never exceed what confirmed transfers have
   brought to the shop's own addresses.
   */
  lemma ReceivedCoversSales(cfg: Config, chain: Chain, delay: nat, events: seq<Event>, run: seq<State>, i: nat)
    requires WellConfigured(cfg) && IsRun(cfg, chain, events, run) && i < |run|
    requires cfg.perOrderAddresses || (TimelyRun(delay, events, run) && cfg.retentionMs >= Horizon(cfg, delay))
    ensures Sum(run[i].orders.Keys, Sale(run[i].orders)) <=
            Sum(chain.Keys, Received(cfg, run[i].orders, chain, run[i].now))
  {
    hide *;
    AlwaysAccessOk(cfg, chain, events, run, i);
    AlwaysClaimsOk(cfg, chain, events, run, i);
    if cfg.perOrderAddresses {
      OwnAddressesNeedNoMemory(cfg, chain, events, run, i);
    } else {
      LongMemorySettlesOnce(cfg, chain, delay, events, run, i);
    }
    SalesCovered(cfg, chain, run[i]);
  }
}
