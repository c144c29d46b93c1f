/**
 Notices of expiry and reminders when the notifier may throw.  A notice is sent after
 the record has changed, so one that fails is lost for good; a reminder is sent
 before, so one that fails stays due.
 */
module Notices {
  import opened Wrappers
  import opened Domain
  import opened Finite
  import opened Protocol
  import opened RefundLedger
  import opened Access
  import opened ExpiryService

  // ---- notices of expiry

  /** The stores, the notices sent so far, and the subscriptions whose notice has failed. */
  datatype Log = Log(s: State, sent: seq<SubId>, failed: set<SubId>)

  /** The turn of one subscription in a pass: if it is over it is deactivated, and then its user is notified. */
  function Notify(n: Log, sid: SubId, fails: bool): Log {
    if !(sid in n.s.subs && n.s.subs[sid].active && n.s.subs[sid].expiresAt <= n.s.now) then n
    else if fails then Log(Deactivate(n.s, sid), n.sent, n.failed + {sid})
    else Log(Deactivate(n.s, sid), n.sent + [sid], n.failed)
  }

  datatype Turn = Step(e: Event) | Notice(sid: SubId, fails: bool)

  ghost predicate CanTurn(cfg: Config, chain: Chain, n: Log, t: Turn) {
    t.Step? ==> !t.e.ExpiryPass? && Enabled(cfg, chain, n.s, t.e)
  }

  function After(cfg: Config, n: Log, t: Turn): Log {
    match t
    case Step(e) => n.(s := Apply(cfg, n.s, e))
    case Notice(sid, fails) => Notify(n, sid, fails)
  }

  /** A run of the protocol in which passes notify, and any notice may fail. */
  ghost predicate IsNoticeRun(cfg: Config, chain: Chain, turns: seq<Turn>, run: seq<Log>) {
    && |run| == |turns| + 1 && run[0] == Log(Initial(run[0].s.now), [], {})
    && forall i :: 0 <= i < |turns| ==> CanTurn(cfg, chain, run[i], turns[i]) && run[i + 1] == After(cfg, run[i], turns[i])
  }

  // ---- a pass of the service is a sequence of such turns

  /** The turns of a list of subscriptions, none of which fails. */
  function NotifyEach(n: Log, ids: seq<SubId>): Log {
    if ids == [] then n else Notify(NotifyEach(n, ids[..|ids| - 1]), ids[|ids| - 1], false)
  }

  /** They change the records as the pass does, and send the notices that it sends. */
  lemma {:induction false} NotifyEachIsPass(n: Log, ids: seq<SubId>)
    requires StoredById(n.s) && Distinct(ids)
    ensures NotifyEach(n, ids) == Log(DeactivateEach(n.s, ids), n.sent + OverList(n.s, ids), n.failed)
  {
    if ids == [] {
      assert n.sent + [] == n.sent;
    } else {
      hide Distinct, Deactivate;
      var rest, last := ids[..|ids| - 1], ids[|ids| - 1];
      Unsnoc(ids);
      NotifyEachIsPass(n, rest);
      DeactivateEachLeaves(n.s, rest, last);
      NotifyIs(NotifyEach(n, rest), last, false);
      assert n.sent + OverList(n.s, rest) + [last] == n.sent + (OverList(n.s, rest) + [last]);
      assert n.sent + (OverList(n.s, rest) + []) == n.sent + OverList(n.s, rest);
    }
  }

  /** A turn deactivates what is over, whatever becomes of the notice. */
  lemma NotifyIs(n: Log, sid: SubId, fails: bool)
    ensures Notify(n, sid, fails).s == Deactivate(n.s, sid)
    ensures Notify(n, sid, fails).sent == n.sent + if Over(n.s, sid) && !fails then [sid] else []
    ensures Notify(n, sid, fails).failed == n.failed + if Over(n.s, sid) && fails then {sid} else {}
  {
    assert n.sent + [] == n.sent;
  }

  // ---- who has been notified

  /** Only the expiry pass deactivates. */
  lemma StepKeepsActive(cfg: Config, chain: Chain, s: State, e: Event)
    requires Balanced(s) && AccessOk(cfg, s) && Enabled(cfg, chain, s, e) && !e.ExpiryPass?
    ensures forall sid :: sid in s.subs ==> sid in Apply(cfg, s, e).subs && Apply(cfg, s, e).subs[sid].active == s.subs[sid].active
    ensures forall sid :: sid in Apply(cfg, s, e).subs && sid !in s.subs ==> Apply(cfg, s, e).subs[sid].active
  {
    AccessStoresById(cfg, s);
    hide Balanced, AccessOk, IssueRefund, ResolveRefund, Create, Deliver, Expire, Mark, SweepSeen, Remind, CanCreate, OnChain;
    if e.PaymentDelivered? {
      EffectOfPayment(cfg, s, e.p, e.newSub);
    } else if e.ReminderPass? {
      RemindKeepsActive(cfg, s, e.sid);
    } else {
      OnlySomeTouchSubs(cfg, s, e);
    }
  }

  lemma EffectOfPayment(cfg: Config, s: State, p: Payment, newSub: SubId)
    requires AccessOk(cfg, s) && newSub !in s.subs
    ensures var s' := Deliver(cfg, s, p, newSub);
            && (forall sid :: sid in s.subs ==> sid in s'.subs && s'.subs[sid].active == s.subs[sid].active)
            && (forall sid :: sid in s'.subs && sid !in s.subs ==> s'.subs[sid].active)
  {
    hide PlacedOnce, PlacedSettled, NoOverlap, OrdersOk;
    if p.orderId in s.orders && Accepts(s.orders[p.orderId], p) {
      DeliverFulfils(cfg, s, p, newSub);
      hide Deliver, Grant, Accepts;
      var sub := Grant(cfg, s, s.orders[p.orderId], newSub);
      if sub.id in s.subs {
        assert IsIndexed(s, sub.id);
      }
    }
  }

  lemma OnlySomeTouchSubs(cfg: Config, s: State, e: Event)
    requires !e.PaymentDelivered? && !e.ReminderPass? && !e.ExpiryPass?
    ensures Apply(cfg, s, e).subs == s.subs
  {
    hide Mark, SweepSeen, Deliver, Remind, Deactivate, Create, Expire, IssueRefund, ResolveRefund;
  }

  lemma RemindKeepsActive(cfg: Config, s: State, x: SubId)
    requires StoredById(s)
    ensures forall sid :: sid in s.subs ==> sid in Remind(cfg, s, x).subs && Remind(cfg, s, x).subs[sid].active == s.subs[sid].active
    ensures Remind(cfg, s, x).subs.Keys == s.subs.Keys
  {
    hide DueForReminder, IndexAfter;
    if Remind(cfg, s, x) != s {
      assert Remind(cfg, s, x).subs == s.subs[x := s.subs[x].(notifiedAt := Some(s.now))];
    }
  }

  /**
   A subscription is inactive exactly if its notice has been sent or has failed, and
   then only one of the two, and only once.
   */
  ghost predicate Accounted(n: Log) {
    && (forall sid :: sid in n.s.subs ==> (!n.s.subs[sid].active <==> sid in n.sent || sid in n.failed))
    && (forall sid :: sid in n.sent ==> sid in n.s.subs && sid !in n.failed)
    && (forall sid :: sid in n.failed ==> sid in n.s.subs)
    && Distinct(n.sent)
  }

  lemma StepKeepsAccounts(cfg: Config, chain: Chain, n: Log, e: Event)
    requires Balanced(n.s) && AccessOk(cfg, n.s) && Accounted(n) && CanTurn(cfg, chain, n, Step(e))
    ensures Accounted(n.(s := Apply(cfg, n.s, e)))
  {
    hide Balanced, AccessOk, Enabled, Apply;
    StepKeepsActive(cfg, chain, n.s, e);
  }

  lemma NoticeKeepsAccounts(n: Log, sid: SubId, fails: bool)
    requires StoredById(n.s) && Accounted(n)
    ensures Accounted(Notify(n, sid, fails))
  {
    var n' := Notify(n, sid, fails);
    if Over(n.s, sid) {
      assert n'.s.subs == n.s.subs[sid := n.s.subs[sid].(active := false)];
      hide Deactivate;
      assert sid !in n.sent && sid !in n.failed;
    }
  }

  /** What holds of every state of a notice run. */
  ghost predicate LogOk(cfg: Config, n: Log) {
    Balanced(n.s) && AccessOk(cfg, n.s) && Accounted(n)
  }

  lemma AccessStoresById(cfg: Config, s: State)
    requires AccessOk(cfg, s)
    ensures StoredById(s)
  {
    forall sid | sid in s.subs
      ensures s.subs[sid].id == sid
    {
      assert SubOk(cfg, s, sid);
    }
  }

  lemma StepKeepsRest(cfg: Config, chain: Chain, s: State, e: Event)
    requires WellConfigured(cfg) && Balanced(s) && AccessOk(cfg, s) && Enabled(cfg, chain, s, e)
    ensures Balanced(Apply(cfg, s, e)) && AccessOk(cfg, Apply(cfg, s, e))
  {
    hide *;
    ApplyKeepsBalance(cfg, chain, s, e);
    ApplyEffect(cfg, chain, s, e);
    EffectKeepsAccess(cfg, s, Apply(cfg, s, e));
  }

  lemma TurnKeepsLog(cfg: Config, chain: Chain, n: Log, t: Turn)
    requires WellConfigured(cfg) && LogOk(cfg, n) && CanTurn(cfg, chain, n, t)
    ensures LogOk(cfg, After(cfg, n, t))
  {
    hide LogOk, After, WellConfigured, CanTurn;
    if t.Step? {
      StepTurnKeepsLog(cfg, chain, n, t.e);
    } else {
      NoticeTurnKeepsLog(cfg, chain, n, t.sid, t.fails);
    }
  }

  lemma StepTurnKeepsLog(cfg: Config, chain: Chain, n: Log, e: Event)
    requires WellConfigured(cfg) && LogOk(cfg, n) && CanTurn(cfg, chain, n, Step(e))
    ensures LogOk(cfg, After(cfg, n, Step(e)))
  {
    hide Balanced, AccessOk, Accounted, WellConfigured, Apply, Enabled;
    StepKeepsRest(cfg, chain, n.s, e);
    StepKeepsAccounts(cfg, chain, n, e);
  }

  lemma NoticeTurnKeepsLog(cfg: Config, chain: Chain, n: Log, sid: SubId, fails: bool)
    requires WellConfigured(cfg) && LogOk(cfg, n)
    ensures LogOk(cfg, After(cfg, n, Notice(sid, fails)))
  {
    PassIsStep(cfg, chain, n.s, sid);
    AccessStoresById(cfg, n.s);
    hide Balanced, AccessOk, Accounted, WellConfigured, Notify, Deactivate, StoredById, Apply, Enabled;
    StepKeepsRest(cfg, chain, n.s, ExpiryPass(sid));
    NotifyIs(n, sid, fails);
    NoticeKeepsAccounts(n, sid, fails);
  }

  lemma PassIsStep(cfg: Config, chain: Chain, s: State, sid: SubId)
    ensures Enabled(cfg, chain, s, ExpiryPass(sid)) && Apply(cfg, s, ExpiryPass(sid)) == Deactivate(s, sid)
  {
  }

  /** In every run every inactive subscription has had one notice, or one that failed. */
  lemma {:induction false} AlwaysAccounted(cfg: Config, chain: Chain, turns: seq<Turn>, run: seq<Log>, i: nat)
    requires WellConfigured(cfg) && IsNoticeRun(cfg, chain, turns, run) && i < |run|
    ensures LogOk(cfg, run[i]) && Accounted(run[i])
  {
    hide Accounted, Balanced, AccessOk, CanTurn, After, WellConfigured;
    if i == 0 {
      InitiallyBalanced(run[0].s.now);
      InitiallyAccessOk(cfg, run[0].s.now);
      NothingToAccount(run[0].s.now);
    } else {
      AlwaysAccounted(cfg, chain, turns, run, i - 1);
      TurnKeepsLog(cfg, chain, run[i - 1], turns[i - 1]);
    }
  }

  lemma NothingToAccount(now: Time)
    ensures Accounted(Log(Initial(now), [], {}))
  {
  }

  /** Notices, sent or failed, are never taken back. */
  lemma {:induction false} NoticesStay(cfg: Config, chain: Chain, turns: seq<Turn>, run: seq<Log>, k: nat, i: nat)
    requires IsNoticeRun(cfg, chain, turns, run) && k <= i < |run|
    ensures run[k].failed <= run[i].failed && forall sid :: sid in run[k].sent ==> sid in run[i].sent
    decreases i
  {
    if k < i {
      hide Apply, Deactivate, Enabled;
      NoticesStay(cfg, chain, turns, run, k, i - 1);
      assert run[i] == After(cfg, run[i - 1], turns[i - 1]);
    }
  }

  /**
   A notice that fails is lost for good: at every later clock value and after whatever
   steps the subscription is inactive, no pass finds it, and its notice is not sent.
   */
  lemma FailedNoticeIsLost(cfg: Config, chain: Chain, turns: seq<Turn>, run: seq<Log>, k: nat, i: nat, sid: SubId)
    requires WellConfigured(cfg) && IsNoticeRun(cfg, chain, turns, run) && k < i < |run|
    requires turns[k] == Notice(sid, true) && Over(run[k].s, sid)
    ensures sid in run[i].s.subs && !run[i].s.subs[sid].active && sid !in run[i].sent
    ensures forall ids :: ListsActive(run[i].s, ids) ==> sid !in ids && sid !in OverList(run[i].s, ids)
  {
    assert run[k + 1] == After(cfg, run[k], turns[k]);
    NotifyIs(run[k], sid, true);
    NoticesStay(cfg, chain, turns, run, k + 1, i);
    AlwaysAccounted(cfg, chain, turns, run, i);
    hide IsNoticeRun, LogOk;
    forall ids | ListsActive(run[i].s, ids)
      ensures sid !in ids && sid !in OverList(run[i].s, ids)
    {
      OverListIsOver(run[i].s, ids, sid);
    }
  }

  lemma {:induction false} OverListIsOver(s: State, ids: seq<SubId>, sid: SubId)
    ensures sid in OverList(s, ids) ==> Over(s, sid) && sid in ids
  {
    if ids != [] {
      OverListIsOver(s, ids[..|ids| - 1], sid);
      assert ids == ids[..|ids| - 1] + [ids[|ids| - 1]];
    }
  }

  /** A notice is lost exactly if the notifier throws when the subscription's turn comes; otherwise it is sent. */
  lemma LostIffItThrows(cfg: Config, chain: Chain, turns: seq<Turn>, run: seq<Log>, k: nat, i: nat, sid: SubId, fails: bool)
    requires WellConfigured(cfg) && IsNoticeRun(cfg, chain, turns, run) && k < i < |run|
    requires turns[k] == Notice(sid, fails) && Over(run[k].s, sid)
    ensures sid in run[i].failed <==> fails
    ensures sid in run[i].sent <==> !fails
  {
    assert run[k + 1] == After(cfg, run[k], turns[k]);
    NotifyIs(run[k], sid, fails);
    assert fails || sid in run[k + 1].sent by {
      assert fails || run[k + 1].sent == run[k].sent + [sid];
    }
    NoticesStay(cfg, chain, turns, run, k + 1, i);
    AlwaysAccounted(cfg, chain, turns, run, i);
  }

  // ---- a run in which a notice is lost

  /** Buy and pay, wait for the end, and let the notice fail. */
  function LosingTurns(): seq<Turn> {
    [Step(OverlapEvents()[0]), Step(OverlapEvents()[1]), Step(OverlapEvents()[2]), Step(Tick(1000)), Notice(0, true)]
  }

  lemma SubEnds()
    ensures Enabled(SHOP, map[], Overlap3(), Tick(1000))
    ensures Apply(SHOP, Overlap3(), Tick(1000)) == Overlap3().(now := 1000)
    ensures Over(Overlap3().(now := 1000), 0) && ListsActive(Overlap3().(now := 1000), [0])
  {
    hide Create, Deliver, Mark, Expire, IssueRefund, ResolveRefund, Remind, Deactivate, SweepSeen, CanCreate, OnChain;
  }

  /** A run of one order whose user is never told that the subscription has ended. */
  lemma NoticeGetsLost() returns (run: seq<Log>)
    ensures WellConfigured(SHOP) && IsNoticeRun(SHOP, map[], LosingTurns(), run)
    ensures Over(run[4].s, 0) && 0 in run[5].failed && 0 !in run[5].sent
  {
    hide Enabled, Apply, Over, Overlap1, Overlap2, Overlap3, OverlapEvents;
    OverlapCreated();
    OverlapSeen();
    OverlapPaid();
    SubEnds();
    StepsAreNotPasses();
    var s4 := Overlap3().(now := 1000);
    var n4 := Log(s4, [], {});
    NotifyIs(n4, 0, true);
    hide Notify;
    run := [Log(Initial(0), [], {}), Log(Overlap1(), [], {}), Log(Overlap2(), [], {}), Log(Overlap3(), [], {}), n4,
            Notify(n4, 0, true)];
  }

  lemma StepsAreNotPasses()
    ensures |OverlapEvents()| == 6 && forall i :: 0 <= i < 3 ==> !OverlapEvents()[i].ExpiryPass?
  {
  }

  // ---- reminders

  /** What is remembered as reminded has been reminded, for its present end. */
  ghost predicate MarkedIsSent(s: State) {
    forall sid :: sid in s.subs && s.subs[sid].notifiedAt.Some? ==> Reminder(sid, s.subs[sid].expiresAt) in s.reminders
  }

  lemma EffectKeepsMarked(cfg: Config, s: State, s': State)
    requires AccessOk(cfg, s) && MarkedIsSent(s) && Effect(cfg, s, s')
    ensures MarkedIsSent(s')
  {
    hide PlacedOnce, PlacedSettled, IndexOk, NoOverlap, TimeBought, SameOrders, OrdersOk;
    if Quiet(cfg, s, s') {
    } else if id, sub :| Fulfils(cfg, s, s', id, sub) {
    } else {
      var sid :| Touches(s, s', sid);
    }
  }

  lemma {:induction false} AlwaysMarked(cfg: Config, chain: Chain, events: seq<Event>, run: seq<State>, i: nat)
    requires WellConfigured(cfg) && IsRun(cfg, chain, events, run) && i < |run|
    ensures MarkedIsSent(run[i])
  {
    hide Enabled, Apply, Balanced, AccessOk, WellConfigured, Effect;
    if i > 0 {
      hide MarkedIsSent;
      AlwaysMarked(cfg, chain, events, run, i - 1);
      AlwaysAccessOk(cfg, chain, events, run, i - 1);
      AlwaysBalanced(cfg, chain, events, run, i - 1);
      ApplyEffect(cfg, chain, run[i - 1], events[i - 1]);
      EffectKeepsMarked(cfg, run[i - 1], run[i]);
    }
  }

  /** The subscription ends within the reminder window. */
  ghost predicate EndsSoon(cfg: Config, s: State, sid: SubId) {
    sid in s.subs && s.now < s.subs[sid].expiresAt <= s.now + cfg.reminderWindowMs
  }

  /**
   No reminder is lost: in every reachable state a subscription that ends soon is still
   due for its reminder, unless one has been sent for this very end.
   */
  lemma DueUntilReminded(cfg: Config, chain: Chain, events: seq<Event>, run: seq<State>, i: nat, sid: SubId)
    requires WellConfigured(cfg) && IsRun(cfg, chain, events, run) && i < |run| && EndsSoon(cfg, run[i], sid)
    ensures Due(cfg, run[i], sid) <==> Reminder(sid, run[i].subs[sid].expiresAt) !in run[i].reminders
  {
    AlwaysMarked(cfg, chain, events, run, i);
    AlwaysAccessOk(cfg, chain, events, run, i);
    RemindedOnce(cfg, chain, events, run, i);
    hide IsRun, PlacedOnce, PlacedSettled, NoOverlap, SubOk, OrdersOk;
    var r := Reminder(sid, run[i].subs[sid].expiresAt);
    if r in run[i].reminders {
      var j :| 0 <= j < |run[i].reminders| && run[i].reminders[j] == r;
      assert ReminderOk(run[i].subs, run[i].reminders[j]);
    }
    assert IsIndexed(run[i], sid);
  }

  /** What a failing pass has done so far is a run of reminder steps. */
  lemma {:induction false} ReminderPassIsRun(cfg: Config, chain: Chain, events: seq<Event>, run: seq<State>, ids: seq<SubId>)
    returns (events': seq<Event>, run': seq<State>)
    requires IsRun(cfg, chain, events, run)
    ensures IsRun(cfg, chain, events', run') && |run'| == |run| + |ids| && run'[..|run|] == run
    ensures run'[|run'| - 1] == RemindEach(cfg, run[|run| - 1], ids)
  {
    if ids == [] {
      return events, run;
    }
    hide Remind;
    var n := |ids| - 1;
    events', run' := ReminderPassIsRun(cfg, chain, events, run, ids[..n]);
    var e := ReminderPass(ids[n]);
    hide IsRun;
    OneMoreStep(cfg, chain, events', run', e);
    var next := Apply(cfg, run'[|run'| - 1], e);
    assert (run' + [next])[..|run|] == run'[..|run|];
    events', run' := events' + [e], run' + [next];
  }

  lemma OneMoreStep(cfg: Config, chain: Chain, events: seq<Event>, run: seq<State>, e: Event)
    requires IsRun(cfg, chain, events, run) && Enabled(cfg, chain, run[|run| - 1], e)
    ensures IsRun(cfg, chain, events + [e], run + [Apply(cfg, run[|run| - 1], e)])
  {
    hide Enabled, Apply;
    var (events', run') := (events + [e], run + [Apply(cfg, run[|run| - 1], e)]);
    forall i | 0 <= i < |events'|
      ensures Enabled(cfg, chain, run'[i], events'[i]) && run'[i + 1] == Apply(cfg, run'[i], events'[i])
    {
      if i < |events| {
        assert events'[i] == events[i] && run'[i] == run[i] && run'[i + 1] == run[i + 1];
      }
    }
  }

  /**
   A reminder whose notifier throws is tried again: after the failed pass it is still
   due, and the next pass that gets to it sends it.
   */
  lemma FailedReminderStaysDue(cfg: Config, s: State, ids: seq<SubId>, done: nat, again: seq<SubId>)
    requires StoredById(s) && Distinct(ids) && done < |ids| && Due(cfg, s, ids[done])
    requires var s' := RemindEach(cfg, s, ids[..done]); ListsActive(s', again) && Distinct(again)
    ensures var s' := RemindEach(cfg, s, ids[..done]);
            && Due(cfg, s', ids[done]) && ids[done] in again
            && Reminder(ids[done], s.subs[ids[done]].expiresAt) in RemindEach(cfg, s', again).reminders
  {
    var s', sid := RemindEach(cfg, s, ids[..done]), ids[done];
    RemindEachLeaves(cfg, s, ids[..done], sid);
    RemindKeepsEnd(cfg, s, ids[..done], sid);
    DueAreListed(cfg, s', again);
    RemindEachSends(cfg, s', again);
  }
}
