/**
 What becomes of a payment that is lost between the mark of its event and its critical
 section: the event brings it back only after the mark is gone, but another event may.
 */
module LostPayments {
  import opened Wrappers
  import opened Domain
  import opened Protocol
  import opened Sales
  import opened Settlement
  import opened Attribution

  // ---- the mark stands in the way

  /** The key under which a step marks its event, if it marks one. */
  function KeyOf(s: State, e: Event): Option<EventKey> {
    match e
    case CallbackSeen(m, eventId, _, _, _) => Some(CallbackKey(m, eventId))
    case PollHit(id, x, _) => if id in s.orders then Some(TxnKey(s.orders[id].payMethod, x)) else None
    case RefundCallbackSeen(m, eventId) => Some(RefundKey(m, eventId))
    case _ => None
  }

  /** A sweep of the marks keeps exactly those that are no older than the retention time. */
  lemma MarksAreKept(cfg: Config, s: State, key: EventKey)
    ensures key in SweepSeen(cfg, s).seen <==> key in s.seen && s.now - s.seen[key] <= cfg.retentionMs
    ensures key in SweepSeen(cfg, s).seen ==> SweepSeen(cfg, s).seen[key] == s.seen[key]
  {
  }

  /** A replayed event changes nothing at all. */
  lemma ReplayDoesNothing(cfg: Config, s: State, e: Event)
    requires KeyOf(s, e).Some? && KeyOf(s, e).value in s.seen
    ensures Apply(cfg, s, e) == s
  {
  }

  /** Payments get under way by new events only. */
  lemma UnderWayMeansNew(cfg: Config, s: State, e: Event, p: Payment)
    requires p !in s.inflight && p in Apply(cfg, s, e).inflight
    ensures KeyOf(s, e).Some? && KeyOf(s, e).value !in s.seen
    ensures Announces(s, e, p) && (e.PollHit? ==> TxnKey(p.payMethod, p.txId) !in s.seen)
  {
    hide Apply;
    UnderWayIsAnnounced(cfg, s, e, p);
    if KeyOf(s, e).value in s.seen {
      ReplayDoesNothing(cfg, s, e);
    }
  }

  /** Nobody claims the transaction for the order: no payment of it is under way, and it has not settled the order. */
  ghost predicate Unclaimed(s: State, id: OrderId, x: TxId) {
    !Claims(s, id, x)
  }

  lemma EffectClaimsByMark(cfg: Config, chain: Chain, s: State, s': State, id: OrderId, x: TxId)
    requires ClaimsOk(cfg, chain, s) && Effect(cfg, chain, s, s') && Unclaimed(s, id, x) && TxnKey(Usdt, x) in s.seen
    ensures Unclaimed(s', id, x)
  {
    hide Claims, Backed, ClaimsOk, Calm, Adds, Pays, Marks, OnChain;
    if Calm(cfg, s, s') {
      CalmClaims(cfg, s, s');
    } else if a :| Adds(cfg, s, s', a) {
      AddsKeepsClaims(cfg, chain, s, s', a);
    } else if a, y :| Marks(s, s', a, y) && Backed(cfg, chain, s, a, y) {
      MarksClaims(s, s', a, y);
      MarksNew(s, s', a, y);
    } else {
      var a, p :| Pays(s, s', a, p);
      PaysClaims(s, s', a, p);
    }
  }

  lemma MarksNew(s: State, s': State, id: OrderId, x: TxId)
    requires Marks(s, s', id, x)
    ensures TxnKey(Usdt, x) !in s.seen
  {
  }

  /** The mark of the transaction is kept from state `k` until state `i`. */
  ghost predicate MarkedUntil(run: seq<State>, x: TxId, k: nat, i: nat) {
    i <= |run| && forall j :: k <= j < i ==> TxnKey(Usdt, x) in run[j].seen
  }

  lemma MarkedLast(run: seq<State>, x: TxId, k: nat, i: nat)
    requires MarkedUntil(run, x, k, i) && k < i
    ensures MarkedUntil(run, x, k, i - 1) && TxnKey(Usdt, x) in run[i - 1].seen
  {
  }

  /**
   A lost USDT payment stays lost while its mark is kept: over any stretch of a run the
   transaction is neither under way for the order nor settles it.
   */
  lemma {:induction false} LostWhileMarked(cfg: Config, chain: Chain, events: seq<Event>, run: seq<State>, k: nat, i: nat,
                                           id: OrderId, x: TxId)
    requires IsRun(cfg, chain, events, run) && k <= i < |run| && Unclaimed(run[k], id, x)
    requires MarkedUntil(run, x, k, i)
    ensures Unclaimed(run[i], id, x)
    decreases i
  {
    if k < i {
      hide Enabled, Apply, Effect, ClaimsOk, Unclaimed, MarkedUntil;
      MarkedLast(run, x, k, i);
      LostWhileMarked(cfg, chain, events, run, k, i - 1, id, x);
      AlwaysClaimsOk(cfg, chain, events, run, i - 1);
      ApplyEffect(cfg, chain, run[i - 1], events[i - 1]);
      EffectClaimsByMark(cfg, chain, run[i - 1], run[i], id, x);
    }
  }

  // ---- and other ways round it

  /** The order takes the payment. */
  ghost predicate PaidFor(s: State, id: OrderId, x: TxId) {
    id in s.orders && s.orders[id].status != Pending && s.orders[id].providerTxnId == Some(x)
  }

  /**
   A poll settles a pending order if its own mark is not there, whatever else has been
   marked: after a lost callback because it marks the transaction and not the
   callback, after a lost poll once the mark has been deleted.
   */
  lemma PollSettlesUnlessMarked(cfg: Config, s: State, id: OrderId, x: TxId, amount: int, newSub: SubId)
    requires id in s.orders && s.orders[id].status == Pending && amount >= s.orders[id].amount
    ensures var p := Payment(id, s.orders[id].payMethod, x, amount); var s' := Apply(cfg, s, PollHit(id, x, amount));
            if TxnKey(p.payMethod, x) in s.seen then s' == s
            else p in s'.inflight && PaidFor(Polled(cfg, s, id, x, amount, newSub), id, x)
  {
    hide Deliver, ApplyPayment;
    var p := Payment(id, s.orders[id].payMethod, x, amount);
    var key := TxnKey(p.payMethod, x);
    if key !in s.seen {
      MarkIs(s, key, p);
      DeliverPays(cfg, Mark(s, key, Some(p)), p, newSub);
    }
  }
}
