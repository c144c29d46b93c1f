/**
 The shop and its sweep pipeline together: they share the deposit addresses, and a
 sweep is queued for an order once that has been settled.  So what is collected comes
 from the addresses on which settled orders were paid.
 */
module Collection {
  import opened Wrappers
  import opened Domain
  import opened Protocol
  import opened RefundLedger
  import opened OrderBook
  import opened Access
  import opened Settlement
  import opened Attribution
  import opened Income
  import Sweep

  datatype Joint = Joint(shop: State, sweeps: Sweep.State)

  datatype Move = Shop(e: Event) | Collect(c: Sweep.Event)

  // ---- moves

  /** What a step of the shop does to the stores that it shares with the pipeline. */
  function Shared(cfg: Config, p: Sweep.Policy, w: Sweep.State, e: Event): Sweep.State {
    match e
    case Tick(to) => w.(now := to)
    case CreateOrder(req, id, _, _, _) => if UsesDepositAddress(cfg, req.payMethod) then Sweep.Allocate(p, w, id, true) else w
    case AddressNotDerived => w.(counter := w.counter + 1)
    case _ => w
  }

  /** Only a settled order with an address of its own is queued; its id is new to the allocator when it is created. */
  ghost predicate CanMove(cfg: Config, chain: Chain, j: Joint, m: Move) {
    match m
    case Shop(e) =>
      Enabled(cfg, chain, j.shop, e) &&
      (e.CreateOrder? && UsesDepositAddress(cfg, e.req.payMethod) ==> e.id !in j.sweeps.deposits)
    case Collect(c) =>
      Sweep.Enabled(j.sweeps, c) && !c.Tick? && !c.DepositAllocated? &&
      (c.SweepEnqueued? ==> IsSettledDeposit(j.shop, c.id))
  }

  ghost predicate IsSettledDeposit(s: State, id: OrderId) {
    id in s.orders && Settled(s.orders[id]) && s.orders[id].payMethod == Usdt && s.orders[id].depositAddress.Some?
  }

  function Move1(cfg: Config, p: Sweep.Policy, j: Joint, m: Move): Joint {
    match m
    case Shop(e) => Joint(Apply(cfg, j.shop, e), Shared(cfg, p, j.sweeps, e))
    case Collect(c) => j.(sweeps := Sweep.Apply(p, j.sweeps, c))
  }

  ghost predicate IsJointRun(cfg: Config, chain: Chain, p: Sweep.Policy, moves: seq<Move>, run: seq<Joint>) {
    && p.hdStartIndex == cfg.hdStartIndex && |run| == |moves| + 1
    && run[0] == Joint(Initial(run[0].shop.now), Sweep.Initial(run[0].sweeps.ledger, run[0].shop.now))
    && forall i :: 0 <= i < |moves| ==> CanMove(cfg, chain, run[i], moves[i]) && run[i + 1] == Move1(cfg, p, run[i], moves[i])
  }

  // ---- the link

  ghost predicate AddressLinked(cfg: Config, s: State, w: Sweep.State, id: OrderId) {
    id in s.orders && s.orders[id].depositAddress.Some? ==>
      UsesDepositAddress(cfg, s.orders[id].payMethod) &&
      id in w.deposits && w.deposits[id].address == s.orders[id].depositAddress.value
  }

  ghost predicate JobLinked(s: State, w: Sweep.State, jobId: Sweep.JobId) {
    jobId in w.jobs ==>
      IsSettledDeposit(s, w.jobs[jobId].orderId) &&
      s.orders[w.jobs[jobId].orderId].depositAddress == Some(w.jobs[jobId].depositAddress)
  }

  ghost predicate Linked(cfg: Config, j: Joint) {
    && j.sweeps.counter == j.shop.depositCounter
    && (forall id :: AddressLinked(cfg, j.shop, j.sweeps, id))
    && (forall jobId :: JobLinked(j.shop, j.sweeps, jobId))
  }

  ghost predicate JointOk(cfg: Config, chain: Chain, p: Sweep.Policy, j: Joint) {
    && Balanced(j.shop) && AccessOk(cfg, j.shop) && ClaimsOk(cfg, chain, j.shop)
    && Sweep.SweepOk(p, j.sweeps) && Linked(cfg, j)
  }

  // ---- steps of the shop

  /** An order keeps its address and its method, and once settled it stays settled. */
  ghost predicate Kept(s: State, s': State, id: OrderId) {
    id in s.orders ==>
      id in s'.orders && SameIdentity(s.orders[id], s'.orders[id]) && (Settled(s.orders[id]) ==> Settled(s'.orders[id]))
  }

  lemma OrdersAreKept(cfg: Config, chain: Chain, s: State, e: Event, id: OrderId)
    requires Balanced(s) && Enabled(cfg, chain, s, e)
    ensures Kept(s, Apply(cfg, s, e), id)
  {
    hide Balanced, Enabled, Apply, Settlement.Effect;
    Settlement.ApplyEffect(cfg, chain, s, e);
    EffectContinues(cfg, chain, s, Apply(cfg, s, e), id);
    ApplyMovesForward(cfg, chain, s, e);
    if id in s.orders && Settled(s.orders[id]) {
      SettledStays(s.orders[id].status, Apply(cfg, s, e).orders[id].status);
    }
  }

  lemma SettledStays(a: OrderStatus, b: OrderStatus)
    requires Reaches(a, b) && (a == Fulfilled || a == Refunded)
    ensures b == Fulfilled || b == Refunded
  {
    if a == Refunded {
      TerminalReachesItself(a, b);
    } else if a != b {
      var mid :| CanTransition(a, mid) && Stage(a) < Stage(mid) && Reaches(mid, b);
      TerminalReachesItself(mid, b);
    }
  }

  /** The address of a new order is the one that the allocator records. */
  lemma CreateLinks(cfg: Config, p: Sweep.Policy, s: State, w: Sweep.State, e: Event)
    requires e.CreateOrder? && p.hdStartIndex == cfg.hdStartIndex && w.counter == s.depositCounter
    requires Sweep.DepositsOk(p, w) && e.id !in s.orders
    requires UsesDepositAddress(cfg, e.req.payMethod) ==> e.id !in w.deposits
    ensures Shared(cfg, p, w, e).counter == Apply(cfg, s, e).depositCounter
    ensures AddressLinked(cfg, Apply(cfg, s, e), Shared(cfg, p, w, e), e.id)
    ensures forall id :: id != e.id && id in Apply(cfg, s, e).orders ==> id in s.orders
  {
    hide Sweep.DepositsOk, Create, Sweep.Allocate;
    CreateFacts(cfg, s, e.req, e.id, e.outTradeNo, e.due, e.accepted);
    if UsesDepositAddress(cfg, e.req.payMethod) {
      AllocateFacts(p, w, e.id);
    }
  }

  lemma CreateFacts(cfg: Config, s: State, req: OrderRequest, id: OrderId, no: Label, amount: nat, accepted: bool)
    requires id !in s.orders
    ensures var s' := Create(cfg, s, req, id, no, amount, accepted);
            && s'.depositCounter == s.depositCounter + (if UsesDepositAddress(cfg, req.payMethod) then 1 else 0)
            && (forall x :: x != id && x in s'.orders ==> x in s.orders)
            && (id in s'.orders ==> s'.orders[id].payMethod == req.payMethod)
            && (id in s'.orders ==>
                  s'.orders[id].depositAddress ==
                  if UsesDepositAddress(cfg, req.payMethod) then Some(Derived(cfg.hdStartIndex + s'.depositCounter)) else None)
  {
    if no !in s.byOutTradeNo {
      assert Create(cfg, s, req, id, no, amount, accepted).orders ==
             s.orders[id := Create(cfg, s, req, id, no, amount, accepted).orders[id]];
    }
  }

  lemma AllocateFacts(p: Sweep.Policy, w: Sweep.State, id: OrderId)
    requires Sweep.DepositsOk(p, w) && id !in w.deposits
    ensures var w' := Sweep.Allocate(p, w, id, true);
            w'.counter == w.counter + 1 && id in w'.deposits && w'.deposits[id].address == Derived(p.hdStartIndex + w'.counter)
  {
    hide Sweep.DepositsOk;
    Sweep.AllocationNeverCollides(p, w, id);
  }

  lemma SharedKeeps(cfg: Config, p: Sweep.Policy, w: Sweep.State, e: Event)
    requires Sweep.SweepOk(p, w)
    ensures Shared(cfg, p, w, e).jobs == w.jobs
    ensures forall id :: id in w.deposits ==> id in Shared(cfg, p, w, e).deposits && Shared(cfg, p, w, e).deposits[id] == w.deposits[id]
  {
  }

  lemma SharedKeepsSweeps(cfg: Config, p: Sweep.Policy, w: Sweep.State, e: Event)
    requires Sweep.SweepOk(p, w)
    ensures Sweep.SweepOk(p, Shared(cfg, p, w, e))
  {
    hide Sweep.SweepOk, Sweep.Allocate;
    match e {
      case Tick(to) => Sweep.LedgerChangeKeepsOk(p, w, w.(now := to));
      case CreateOrder(req, id, _, _, _) => Sweep.AllocateKeepsOk(p, w, id, true);
      case AddressNotDerived => CounterKeepsSweeps(p, w);
      case _ =>
    }
  }

  lemma CounterKeepsSweeps(p: Sweep.Policy, w: Sweep.State)
    requires Sweep.SweepOk(p, w)
    ensures Sweep.SweepOk(p, w.(counter := w.counter + 1))
  {
    var w' := w.(counter := w.counter + 1);
    forall id | id in w'.deposits ensures Sweep.DepositOk(p, w', id) { assert Sweep.DepositOk(p, w, id); }
    forall x | x in w'.byAddress ensures Sweep.AddressOk(w', x) { assert Sweep.AddressOk(w, x); }
    forall jobId | jobId in w'.jobs ensures Sweep.JobOk(w', jobId) { assert Sweep.JobOk(w, jobId); }
  }

  lemma ShopKeepsLink(cfg: Config, chain: Chain, p: Sweep.Policy, j: Joint, e: Event)
    requires p.hdStartIndex == cfg.hdStartIndex && JointOk(cfg, chain, p, j) && CanMove(cfg, chain, j, Shop(e))
    ensures Linked(cfg, Move1(cfg, p, j, Shop(e)))
  {
    hide Balanced, AccessOk, ClaimsOk, Apply, Enabled, Shared;
    var (s, w) := (j.shop, j.sweeps);
    var (s', w') := (Apply(cfg, s, e), Shared(cfg, p, w, e));
    SharedKeeps(cfg, p, w, e);
    NewOrders(cfg, chain, p, s, w, e);
    hide Sweep.SweepOk;
    forall id
      ensures AddressLinked(cfg, s', w', id)
    {
      assert AddressLinked(cfg, s, w, id);
      OrdersAreKept(cfg, chain, s, e, id);
    }
    forall jobId
      ensures JobLinked(s', w', jobId)
    {
      assert JobLinked(s, w, jobId);
      if jobId in w.jobs {
        OrdersAreKept(cfg, chain, s, e, w.jobs[jobId].orderId);
      }
    }
  }

  /** Counters stay in step, and new orders are linked. */
  lemma NewOrders(cfg: Config, chain: Chain, p: Sweep.Policy, s: State, w: Sweep.State, e: Event)
    requires p.hdStartIndex == cfg.hdStartIndex && w.counter == s.depositCounter && Sweep.SweepOk(p, w)
    requires Enabled(cfg, chain, s, e) && (e.CreateOrder? && UsesDepositAddress(cfg, e.req.payMethod) ==> e.id !in w.deposits)
    ensures Shared(cfg, p, w, e).counter == Apply(cfg, s, e).depositCounter
    ensures forall id :: id !in s.orders ==> AddressLinked(cfg, Apply(cfg, s, e), Shared(cfg, p, w, e), id)
  {
    if e.CreateOrder? {
      hide Apply, Shared;
      CreateLinks(cfg, p, s, w, e);
    } else {
      hide Enabled;
      CounterIs(cfg, p, s, w, e);
      hide Apply, Shared;
      forall id | id !in s.orders
        ensures id !in Apply(cfg, s, e).orders
      {
        if id in Apply(cfg, s, e).orders {
          StepKeepsKeys(cfg, s, e);
        }
      }
    }
  }

  lemma CounterIs(cfg: Config, p: Sweep.Policy, s: State, w: Sweep.State, e: Event)
    requires w.counter == s.depositCounter && !e.CreateOrder?
    ensures Shared(cfg, p, w, e).counter == Apply(cfg, s, e).depositCounter
  {
    hide Deliver, Expire, IssueRefund, ResolveRefund, Remind, Deactivate, Mark, SweepSeen;
  }

  // ---- steps of the pipeline

  lemma CollectKeepsLink(cfg: Config, chain: Chain, p: Sweep.Policy, j: Joint, c: Sweep.Event)
    requires JointOk(cfg, chain, p, j) && CanMove(cfg, chain, j, Collect(c))
    ensures Linked(cfg, Move1(cfg, p, j, Collect(c)))
  {
    hide Balanced, AccessOk, ClaimsOk, Sweep.StepJob, Sweep.StepLedger, IsSettledDeposit, Sweep.Truthful;
    var (s, w) := (j.shop, j.sweeps);
    var w' := Sweep.Apply(p, w, c);
    SweepKeeps(p, w, c);
    hide Sweep.Apply, Sweep.SweepOk;
    forall id
      ensures AddressLinked(cfg, s, w', id)
    {
      assert AddressLinked(cfg, s, w, id);
    }
    forall jobId
      ensures JobLinked(s, w', jobId)
    {
      if jobId in w.jobs {
        assert JobLinked(s, w, jobId);
      } else if jobId in w'.jobs {
        assert AddressLinked(cfg, s, w, c.id);
        SettledHasAddress(s, c.id);
      }
    }
  }

  lemma SettledHasAddress(s: State, id: OrderId)
    requires IsSettledDeposit(s, id)
    ensures id in s.orders && s.orders[id].depositAddress.Some?
  {
  }

  /** A step of the pipeline keeps the deposits and whose jobs are whose; a new job is for its deposit. */
  lemma SweepKeeps(p: Sweep.Policy, w: Sweep.State, c: Sweep.Event)
    requires Sweep.SweepOk(p, w) && Sweep.Enabled(w, c) && !c.DepositAllocated?
    ensures var w' := Sweep.Apply(p, w, c);
            && w'.deposits == w.deposits && w'.counter == w.counter
            && (forall jobId :: jobId in w.jobs ==> jobId in w'.jobs && Sweep.SameOwner(w.jobs[jobId], w'.jobs[jobId]))
            && (forall jobId :: jobId in w'.jobs && jobId !in w.jobs ==>
                  c.SweepEnqueued? && c.id in w.deposits && w'.jobs[jobId].orderId == c.id &&
                  w'.jobs[jobId].depositAddress == w.deposits[c.id].address)
  {
    hide Sweep.StepJob, Sweep.StepLedger, Sweep.Truthful, Sweep.Backed;
    if c.JobProcessed? && c.jobId in w.jobs {
      Sweep.StepKeepsOwner(p, w.jobs[c.jobId], c.a, w.now);
    }
    if c.SweepEnqueued? && c.id in w.deposits {
      assert Sweep.DepositOk(p, w, c.id);
    }
    if c.SweepRetried? && Sweep.CanRetry(w, c.id) {
      assert Sweep.JobOk(w, w.byOrderId[c.id]);
    }
  }

  // ---- every joint run

  lemma MoveKeepsOk(cfg: Config, chain: Chain, p: Sweep.Policy, j: Joint, m: Move)
    requires WellConfigured(cfg) && p.hdStartIndex == cfg.hdStartIndex && JointOk(cfg, chain, p, j) && CanMove(cfg, chain, j, m)
    ensures JointOk(cfg, chain, p, Move1(cfg, p, j, m))
  {
    hide Balanced, AccessOk, ClaimsOk, Sweep.SweepOk, Linked, Apply, Enabled, Shared, Sweep.Apply, Sweep.Enabled, WellConfigured;
    match m {
      case Shop(e) =>
        ShopKeepsLink(cfg, chain, p, j, e);
        ShopKeepsRest(cfg, chain, j.shop, e);
        SharedKeepsSweeps(cfg, p, j.sweeps, e);
      case Collect(c) =>
        CollectKeepsLink(cfg, chain, p, j, c);
        Sweep.ApplyKeepsOk(p, j.sweeps, c);
    }
  }

  lemma ShopKeepsRest(cfg: Config, chain: Chain, s: State, e: Event)
    requires WellConfigured(cfg) && Balanced(s) && AccessOk(cfg, s) && ClaimsOk(cfg, chain, s) && Enabled(cfg, chain, s, e)
    ensures Balanced(Apply(cfg, s, e)) && AccessOk(cfg, Apply(cfg, s, e)) && ClaimsOk(cfg, chain, Apply(cfg, s, e))
  {
    hide *;
    ApplyKeepsBalance(cfg, chain, s, e);
    Access.ApplyEffect(cfg, chain, s, e);
    EffectKeepsAccess(cfg, s, Apply(cfg, s, e));
    Settlement.ApplyEffect(cfg, chain, s, e);
    EffectKeepsClaims(cfg, chain, s, Apply(cfg, s, e));
  }

  lemma {:induction false} AlwaysJointOk(cfg: Config, chain: Chain, p: Sweep.Policy, moves: seq<Move>, run: seq<Joint>, i: nat)
    requires WellConfigured(cfg) && IsJointRun(cfg, chain, p, moves, run) && i < |run|
    ensures JointOk(cfg, chain, p, run[i])
  {
    hide Balanced, AccessOk, ClaimsOk, CanMove, Move1, WellConfigured;
    if i == 0 {
      var now := run[0].shop.now;
      InitiallyBalanced(now);
      InitiallyAccessOk(cfg, now);
      InitiallyClaimsOk(cfg, chain, now);
    } else {
      hide JointOk;
      AlwaysJointOk(cfg, chain, p, moves, run, i - 1);
      MoveKeepsOk(cfg, chain, p, run[i - 1], moves[i - 1]);
    }
  }

  /**
   Every sweep job belongs to a settled USDT order, and empties the very address on which
   a confirmed transfer paid for that order.
   */
  lemma CollectedWasSold(cfg: Config, chain: Chain, p: Sweep.Policy, moves: seq<Move>, run: seq<Joint>, i: nat, jobId: Sweep.JobId)
    requires WellConfigured(cfg) && IsJointRun(cfg, chain, p, moves, run) && i < |run| && jobId in run[i].sweeps.jobs
    ensures var job := run[i].sweeps.jobs[jobId]; var orders := run[i].shop.orders;
            && job.orderId in orders && Settled(orders[job.orderId]) && orders[job.orderId].payMethod == Usdt
            && var x := PaidBy(orders)(job.orderId);
            x in chain && chain[x].confirmed && chain[x].to == job.depositAddress && chain[x].value >= orders[job.orderId].amount
  {
    hide IsJointRun;
    AlwaysJointOk(cfg, chain, p, moves, run, i);
    JobWasPaid(cfg, chain, p, run[i], jobId);
  }

  lemma JobWasPaid(cfg: Config, chain: Chain, p: Sweep.Policy, j: Joint, jobId: Sweep.JobId)
    requires JointOk(cfg, chain, p, j) && jobId in j.sweeps.jobs
    ensures var job := j.sweeps.jobs[jobId]; var orders := j.shop.orders;
            && job.orderId in orders && Settled(orders[job.orderId]) && orders[job.orderId].payMethod == Usdt
            && var x := PaidBy(orders)(job.orderId);
            x in chain && chain[x].confirmed && chain[x].to == job.depositAddress && chain[x].value >= orders[job.orderId].amount
  {
    hide Balanced, AccessOk, ClaimsOk, Sweep.SweepOk;
    assert JobLinked(j.shop, j.sweeps, jobId);
    var id := j.sweeps.jobs[jobId].orderId;
    assert AddressLinked(cfg, j.shop, j.sweeps, id);
    SoldIsReceived(cfg, chain, j.shop, id);
  }

  /** And a swept job has moved its amount from that address to its collection address. */
  lemma SweptCameFromSale(cfg: Config, chain: Chain, p: Sweep.Policy, moves: seq<Move>, run: seq<Joint>, i: nat, jobId: Sweep.JobId)
    requires WellConfigured(cfg) && IsJointRun(cfg, chain, p, moves, run) && i < |run|
    requires jobId in run[i].sweeps.jobs && run[i].sweeps.jobs[jobId].status == Sweep.Swept
    ensures var job := run[i].sweeps.jobs[jobId]; var orders := run[i].shop.orders;
            && job.orderId in orders && PaidBy(orders)(job.orderId) in chain && job.sweepTxId.Some?
            && job.sweepTxId.value in run[i].sweeps.ledger
            && run[i].sweeps.ledger[job.sweepTxId.value] ==
               Sweep.Tx(Sweep.TokenUsdt, chain[PaidBy(orders)(job.orderId)].to, job.collectionAddress, job.amountMicro, true)
  {
    hide IsJointRun;
    AlwaysJointOk(cfg, chain, p, moves, run, i);
    JobWasPaid(cfg, chain, p, run[i], jobId);
    hide Balanced, AccessOk, ClaimsOk, Linked, Sweep.DepositsOk;
    assert Sweep.JobOk(run[i].sweeps, jobId);
  }
}
