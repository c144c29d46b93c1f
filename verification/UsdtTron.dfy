/**
 Reconciliation of USDT payments: unique amounts for orders that share a receiving
 address, and matching of on-chain transfers to orders.
 */
module UsdtTron {
  import opened Wrappers
  import opened Domain
  import opened Finite

  /** Tolerance for clock differences between the service and the chain. */
  const CLOCK_TOLERANCE: int := 300000

  // ---- unique amounts

  ghost predicate IsLeastFree(amount: int, base: int, taken: set<int>, maxDelta: int) {
    base <= amount <= base + maxDelta && amount !in taken && forall a :: base <= a < amount ==> a in taken
  }

  /** The least amount from the base price on, within the allowed delta, that no pending order uses. */
  method AllocateUniqueAmount(base: int, taken: set<int>, maxDelta: int) returns (r: Result<int>)
    ensures r.Ok? ==> IsLeastFree(r.value, base, taken, maxDelta)
    ensures r.Err? <==> forall a :: base <= a <= base + maxDelta ==> a in taken
  {
    var delta := 0;
    while delta <= maxDelta
      invariant 0 <= delta
      invariant forall a :: base <= a < base + delta && a <= base + maxDelta ==> a in taken
      decreases maxDelta - delta
    {
      var candidate := base + delta;
      if candidate !in taken {
        return Ok(candidate);
      }
      delta := delta + 1;
    }
    return Err(ProviderFailure);
  }

  lemma LeastFreeUnique(a: int, b: int, base: int, taken: set<int>, maxDelta: int)
    requires IsLeastFree(a, base, taken, maxDelta) && IsLeastFree(b, base, taken, maxDelta)
    ensures a == b
  {
  }

  /** As long as at most maxDelta amounts of the range are taken, one is free. */
  lemma AmountAvailable(base: int, taken: set<int>, maxDelta: nat)
    requires |taken * Range(base, base + maxDelta + 1)| <= maxDelta
    ensures exists a :: base <= a <= base + maxDelta && a !in taken
  {
    var range := Range(base, base + maxDelta + 1);
    RangeSize(base, base + maxDelta + 1);
    assert taken * range != range;
    var a :| a in range && a !in taken;
    assert base <= a <= base + maxDelta;
  }

  // ---- matching transfers

  /** With a shared receiving address the amount identifies the order, so it must be exact. */
  predicate MatchesShared(o: Order, t: Transfer, receiving: Address) {
    t.confirmed && t.to == receiving && t.value == o.amount && t.timestamp >= o.createdAt - CLOCK_TOLERANCE
  }

  /** With an address of its own an order accepts any transfer that covers the amount. */
  predicate MatchesOwn(o: Order, t: Transfer, deposit: Address) {
    t.confirmed && t.to == deposit && t.value >= o.amount && t.timestamp >= o.createdAt - CLOCK_TOLERANCE
  }

  /** `r` is the first of the transfers that is wanted, or none if there is none. */
  ghost predicate IsFirst(r: Option<Transfer>, transfers: seq<Transfer>, wanted: Transfer -> bool) {
    match r
    case Some(t) => exists i :: 0 <= i < |transfers| && t == transfers[i] && FirstAt(transfers, wanted, i)
    case None => forall j :: 0 <= j < |transfers| ==> !wanted(transfers[j])
  }

  ghost predicate FirstAt(transfers: seq<Transfer>, wanted: Transfer -> bool, i: int) {
    0 <= i < |transfers| && wanted(transfers[i]) && forall j :: 0 <= j < i ==> !wanted(transfers[j])
  }

  /** There is only one first transfer, and it is a wanted one of the list. */
  lemma FirstIsOne(r: Option<Transfer>, r': Option<Transfer>, transfers: seq<Transfer>, wanted: Transfer -> bool)
    requires IsFirst(r, transfers, wanted) && IsFirst(r', transfers, wanted)
    ensures r == r' && (r.Some? ==> r.value in transfers && wanted(r.value))
    ensures r.None? <==> forall t :: t in transfers ==> !wanted(t)
  {
  }

  /** The first unclaimed transfer of the exact amount to the shared address. */
  method MatchTransfer(o: Order, transfers: seq<Transfer>, receiving: Address, claimed: set<TxId>)
    returns (r: Option<Transfer>)
    ensures IsFirst(r, transfers, t => MatchesShared(o, t, receiving) && t.txId !in claimed)
  {
    for i := 0 to |transfers|
      invariant forall j :: 0 <= j < i ==> !MatchesShared(o, transfers[j], receiving) || transfers[j].txId in claimed
    {
      if MatchesShared(o, transfers[i], receiving) && transfers[i].txId !in claimed {
        assert FirstAt(transfers, t => MatchesShared(o, t, receiving) && t.txId !in claimed, i);
        return Some(transfers[i]);
      }
    }
    return None;
  }

  /** The first unclaimed transfer to the order's own address that covers the amount. */
  method MatchByAddress(o: Order, transfers: seq<Transfer>, deposit: Address, claimed: set<TxId>)
    returns (r: Option<Transfer>)
    ensures IsFirst(r, transfers, t => MatchesOwn(o, t, deposit) && t.txId !in claimed)
  {
    for i := 0 to |transfers|
      invariant forall j :: 0 <= j < i ==> !MatchesOwn(o, transfers[j], deposit) || transfers[j].txId in claimed
    {
      if MatchesOwn(o, transfers[i], deposit) && transfers[i].txId !in claimed {
        assert FirstAt(transfers, t => MatchesOwn(o, t, deposit) && t.txId !in claimed, i);
        return Some(transfers[i]);
      }
    }
    return None;
  }
}
