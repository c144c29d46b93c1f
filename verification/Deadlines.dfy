/**
 What happens when: reminders shortly before the end of a subscription, deactivation
 and expiry after the end and not before.
 */
module Deadlines {
  import opened Wrappers
  import opened Domain
  import opened Finite
  import opened Protocol
  import opened Access
  import opened OrderBook
  import opened ExpiryService
  import opened PaymentService
  import opened Notices

  // ---- reminders

  /** A subscription is due exactly if it is active, ends soon and has no reminder noted. */
  lemma DueIffEndsSoon(cfg: Config, s: State, sid: SubId)
    ensures Due(cfg, s, sid) <==> EndsSoon(cfg, s, sid) && s.subs[sid].active && s.subs[sid].notifiedAt.None?
  {
  }

  /** A reminder for a subscription that is due is noted at the present time, and nothing else changes. */
  lemma ReminderNoted(cfg: Config, s: State, sid: SubId)
    requires StoredById(s) && Due(cfg, s, sid) && IsIndexed(s, sid)
    ensures Remind(cfg, s, sid) == s.(subs := s.subs[sid := s.subs[sid].(notifiedAt := Some(s.now))],
                                      reminders := s.reminders + [Reminder(sid, s.subs[sid].expiresAt)])
  {
    var s' := Remind(cfg, s, sid);
    assert s'.activeByUser == s.activeByUser;
  }

  /** Step `j` was the turn of this subscription, which ended within the window then. */
  ghost predicate SentInTime(cfg: Config, events: seq<Event>, run: seq<State>, j: nat, r: Reminder) {
    && j < |events| && j < |run| && events[j] == ReminderPass(r.subId)
    && r.subId in run[j].subs && run[j].subs[r.subId].active && run[j].subs[r.subId].expiresAt == r.expiresAt
    && run[j].now < r.expiresAt <= run[j].now + cfg.reminderWindowMs
  }

  lemma StepReminds(cfg: Config, s: State, e: Event)
    ensures Apply(cfg, s, e).reminders == s.reminders ||
            (e.ReminderPass? && EndsSoon(cfg, s, e.sid) && s.subs[e.sid].active &&
             Apply(cfg, s, e).reminders == s.reminders + [Reminder(e.sid, s.subs[e.sid].expiresAt)])
  {
    hide Create, Deliver, Expire, IssueRefund, ResolveRefund, Mark, SweepSeen, Deactivate;
  }

  /** In every run each reminder was sent at a time `t` with `t < end <= t + window`, for the end it names. */
  lemma {:induction false} RemindersComeInTime(cfg: Config, chain: Chain, events: seq<Event>, run: seq<State>, i: nat, r: Reminder)
    requires IsRun(cfg, chain, events, run) && i < |run| && r in run[i].reminders
    ensures exists j :: 0 <= j < i && SentInTime(cfg, events, run, j, r)
  {
    if i > 0 {
      hide Enabled, Apply;
      StepReminds(cfg, run[i - 1], events[i - 1]);
      if r in run[i - 1].reminders {
        RemindersComeInTime(cfg, chain, events, run, i - 1, r);
      } else {
        assert SentInTime(cfg, events, run, i - 1, r);
      }
    }
  }

  // ---- subscriptions that are over

  /** A pass leaves active exactly the subscriptions that have not ended. */
  lemma PassLeavesNoneOver(s: State, ids: seq<SubId>, sid: SubId)
    requires StoredById(s) && ListsActive(s, ids) && sid in s.subs
    ensures var s' := DeactivateEach(s, ids);
            sid in s'.subs && (s'.subs[sid].active <==> s.subs[sid].active && s.subs[sid].expiresAt > s.now)
  {
    DeactivateEachAt(s, ids, sid);
  }

  /** In every run a subscription that is not active has ended. */
  lemma InactiveIsOver(cfg: Config, chain: Chain, events: seq<Event>, run: seq<State>, i: nat, sid: SubId)
    requires WellConfigured(cfg) && IsRun(cfg, chain, events, run) && i < |run|
    requires sid in run[i].subs && !run[i].subs[sid].active
    ensures run[i].subs[sid].expiresAt <= run[i].now
  {
    hide IsRun, PlacedOnce, PlacedSettled, NoOverlap, SubOk, OrdersOk;
    AlwaysAccessOk(cfg, chain, events, run, i);
    assert !IsIndexed(run[i], sid);
  }

  // ---- orders whose time is up

  /** A pass expires exactly the pending orders whose time is up. */
  lemma PassExpires(s: State, ids: seq<OrderId>, id: OrderId)
    requires Elements(ids) == s.orders.Keys && id in s.orders
    ensures var s' := ExpireEach(s, ids);
            id in s'.orders &&
            s'.orders[id].status == if s.orders[id].status == Pending && s.orders[id].expiresAt <= s.now then Expired else s.orders[id].status
  {
    hide ExpireEach;
    ExpireEachIsPass(s, ids);
  }

  /** What the passes count. */
  lemma CountedByPasses(cfg: Config, s: State)
    ensures forall id :: id in Stale(s.orders, s.now) <==>
              id in s.orders && s.orders[id].status == Pending && s.orders[id].expiresAt <= s.now
    ensures forall sid :: sid in OverSet(s) <==> sid in s.subs && s.subs[sid].active && s.subs[sid].expiresAt <= s.now
    ensures forall sid :: sid in DueSet(cfg, s) <==> EndsSoon(cfg, s, sid) && s.subs[sid].active && s.subs[sid].notifiedAt.None?
  {
  }

  lemma RefundsExpireNothing(cfg: Config, s: State, e: Event, id: OrderId)
    requires e.RefundIssued? || e.RefundResolved?
    requires id in Apply(cfg, s, e).orders && Apply(cfg, s, e).orders[id].status == Expired
    ensures id in s.orders && s.orders[id].status == Expired
  {
  }

  lemma NewIsNotExpired(cfg: Config, s: State, e: Event, id: OrderId)
    requires e.CreateOrder?
    requires id in Apply(cfg, s, e).orders && Apply(cfg, s, e).orders[id].status == Expired
    ensures id in s.orders && s.orders[id].status == Expired
  {
    hide Create;
    NewIsUnpaid(cfg, s, e);
  }

  lemma StepExpires(cfg: Config, s: State, e: Event, id: OrderId)
    requires id in Apply(cfg, s, e).orders && Apply(cfg, s, e).orders[id].status == Expired
    ensures id in s.orders
    ensures s.orders[id].status == Expired || (s.orders[id].status == Pending && s.orders[id].expiresAt <= s.now)
  {
    hide Create, Deliver, IssueRefund, ResolveRefund, Mark, SweepSeen, Remind, Deactivate;
    if e.PaymentDelivered? {
      PaymentOutcome(cfg, s, e.p, e.newSub);
    } else if e.RefundIssued? || e.RefundResolved? {
      RefundsExpireNothing(cfg, s, e, id);
    } else if e.CreateOrder? {
      NewIsNotExpired(cfg, s, e, id);
    } else if !e.OrderExpired? {
      OtherSteps(cfg, s, e);
    }
  }

  /** In every run an expired order has run out of time. */
  lemma {:induction false} ExpiredIsOver(cfg: Config, chain: Chain, events: seq<Event>, run: seq<State>, i: nat, id: OrderId)
    requires IsRun(cfg, chain, events, run) && i < |run| && id in run[i].orders && run[i].orders[id].status == Expired
    ensures run[i].orders[id].expiresAt <= run[i].now
  {
    if i > 0 {
      var (s, e) := (run[i - 1], events[i - 1]);
      hide Enabled, Apply;
      StepExpires(cfg, s, e, id);
      StepKeepsTerms(cfg, chain, s, e, id);
      TimePasses(cfg, chain, s, e);
      if s.orders[id].status == Expired {
        ExpiredIsOver(cfg, chain, events, run, i - 1, id);
      }
    }
  }
}
