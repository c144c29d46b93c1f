/** The passes over subscriptions near and past their end, and that repeating a pass does nothing more. */
module ExpiryService {
  import opened Wrappers
  import opened Domain
  import opened Finite
  import opened Protocol
  import opened Stores

  // ---- passes on states

  /** Reminds one subscription after the other, where a reminder is due. */
  function RemindEach(cfg: Config, s: State, ids: seq<SubId>): State {
    if ids == [] then s else Remind(cfg, RemindEach(cfg, s, ids[..|ids| - 1]), ids[|ids| - 1])
  }

  function DeactivateEach(s: State, ids: seq<SubId>): State {
    if ids == [] then s else Deactivate(DeactivateEach(s, ids[..|ids| - 1]), ids[|ids| - 1])
  }

  ghost predicate Due(cfg: Config, s: State, sid: SubId) {
    sid in s.subs && DueForReminder(cfg, s, s.subs[sid])
  }

  ghost predicate Over(s: State, sid: SubId) {
    sid in s.subs && s.subs[sid].active && s.subs[sid].expiresAt <= s.now
  }

  ghost predicate StoredById(s: State) {
    forall sid :: sid in s.subs ==> s.subs[sid].id == sid
  }

  /** After a pass no listed subscription is due, and no other has become due. */
  lemma {:induction false} RemindEachLeaves(cfg: Config, s: State, ids: seq<SubId>, sid: SubId)
    requires StoredById(s)
    ensures StoredById(RemindEach(cfg, s, ids)) && RemindEach(cfg, s, ids).now == s.now
    ensures Due(cfg, RemindEach(cfg, s, ids), sid) <==> Due(cfg, s, sid) && sid !in ids
  {
    if ids != [] {
      var rest, last := ids[..|ids| - 1], ids[|ids| - 1];
      RemindEachLeaves(cfg, s, rest, sid);
      assert ids == rest + [last];
    }
  }

  lemma {:induction false} DeactivateEachLeaves(s: State, ids: seq<SubId>, sid: SubId)
    requires StoredById(s)
    ensures StoredById(DeactivateEach(s, ids)) && DeactivateEach(s, ids).now == s.now
    ensures Over(DeactivateEach(s, ids), sid) <==> Over(s, sid) && sid !in ids
  {
    if ids != [] {
      var rest, last := ids[..|ids| - 1], ids[|ids| - 1];
      DeactivateEachLeaves(s, rest, sid);
      assert ids == rest + [last];
    }
  }

  lemma {:induction false} NoneDueNothingSent(cfg: Config, s: State, ids: seq<SubId>)
    requires forall sid :: !Due(cfg, s, sid)
    ensures RemindEach(cfg, s, ids) == s
  {
    if ids != [] {
      NoneDueNothingSent(cfg, s, ids[..|ids| - 1]);
      assert !Due(cfg, s, ids[|ids| - 1]);
    }
  }

  lemma {:induction false} NoneOverNothingChanges(s: State, ids: seq<SubId>)
    requires forall sid :: !Over(s, sid)
    ensures DeactivateEach(s, ids) == s
  {
    if ids != [] {
      NoneOverNothingChanges(s, ids[..|ids| - 1]);
      assert !Over(s, ids[|ids| - 1]);
    }
  }

  ghost predicate ListsActive(s: State, ids: seq<SubId>) {
    forall sid :: sid in ids <==> sid in s.subs && s.subs[sid].active
  }

  /** A pass at the same time as an earlier one sends nothing and changes nothing. */
  lemma RemindersAreIdempotent(cfg: Config, s: State, ids: seq<SubId>, again: seq<SubId>)
    requires StoredById(s) && ListsActive(s, ids)
    ensures RemindEach(cfg, RemindEach(cfg, s, ids), again) == RemindEach(cfg, s, ids)
  {
    forall sid
      ensures !Due(cfg, RemindEach(cfg, s, ids), sid)
    {
      RemindEachLeaves(cfg, s, ids, sid);
    }
    NoneDueNothingSent(cfg, RemindEach(cfg, s, ids), again);
  }

  lemma DeactivationIsIdempotent(s: State, ids: seq<SubId>, again: seq<SubId>)
    requires StoredById(s) && ListsActive(s, ids)
    ensures DeactivateEach(DeactivateEach(s, ids), again) == DeactivateEach(s, ids)
  {
    forall sid
      ensures !Over(DeactivateEach(s, ids), sid)
    {
      DeactivateEachLeaves(s, ids, sid);
    }
    NoneOverNothingChanges(DeactivateEach(s, ids), again);
  }

  // ---- what a pass comes to

  ghost function DueSet(cfg: Config, s: State): set<SubId> {
    set sid | sid in s.subs && Due(cfg, s, sid)
  }

  /** Only reminders and the marks of what was due and listed change. */
  lemma {:induction false} RemindEachAt(cfg: Config, s: State, ids: seq<SubId>, sid: SubId)
    requires StoredById(s) && sid in s.subs
    ensures var s' := RemindEach(cfg, s, ids);
            && StoredById(s') && sid in s'.subs && s'.now == s.now
            && s'.subs[sid] == (if Due(cfg, s, sid) && sid in ids then s.subs[sid].(notifiedAt := Some(s.now)) else s.subs[sid])
  {
    if ids != [] {
      var rest, last := ids[..|ids| - 1], ids[|ids| - 1];
      RemindEachAt(cfg, s, rest, sid);
      assert ids == rest + [last];
    }
  }

  /** The listed subscriptions for which a reminder is due. */
  ghost function DueAmong(cfg: Config, s: State, ids: seq<SubId>): set<SubId> {
    set sid | sid in ids && Due(cfg, s, sid)
  }

  lemma DueAmongSnoc(cfg: Config, s: State, ids: seq<SubId>, last: SubId)
    requires last !in ids
    ensures last !in DueAmong(cfg, s, ids)
    ensures DueAmong(cfg, s, ids + [last]) == DueAmong(cfg, s, ids) + if Due(cfg, s, last) then {last} else {}
  {
    hide Due;
  }

  /** A pass sends one reminder for each subscription that was due, and no other. */
  lemma {:induction false} RemindEachSends(cfg: Config, s: State, ids: seq<SubId>)
    requires StoredById(s) && Distinct(ids)
    ensures |RemindEach(cfg, s, ids).reminders| == |s.reminders| + |DueAmong(cfg, s, ids)|
    ensures forall r :: r in RemindEach(cfg, s, ids).reminders <==>
              r in s.reminders || (r.subId in ids && Due(cfg, s, r.subId) && r.expiresAt == s.subs[r.subId].expiresAt)
  {
    if ids == [] {
      assert DueAmong(cfg, s, ids) == {};
    } else {
      hide DueForReminder, DueAmong, Distinct;
      var rest, last := ids[..|ids| - 1], ids[|ids| - 1];
      Unsnoc(ids);
      RemindEachSends(cfg, s, rest);
      RemindEachLeaves(cfg, s, rest, last);
      RemindKeepsEnd(cfg, s, rest, last);
      DueAmongSnoc(cfg, s, rest, last);
      InsertSize(DueAmong(cfg, s, rest), last);
    }
  }

  lemma RemindKeepsEnd(cfg: Config, s: State, ids: seq<SubId>, sid: SubId)
    requires StoredById(s)
    ensures var s' := RemindEach(cfg, s, ids); (sid in s'.subs <==> sid in s.subs) && (sid in s.subs ==> s'.subs[sid].expiresAt == s.subs[sid].expiresAt)
  {
    RemindEachKeys(cfg, s, ids);
    if sid in s.subs {
      RemindEachAt(cfg, s, ids, sid);
    }
  }

  lemma {:induction false} RemindEachKeys(cfg: Config, s: State, ids: seq<SubId>)
    requires StoredById(s)
    ensures RemindEach(cfg, s, ids).subs.Keys == s.subs.Keys && StoredById(RemindEach(cfg, s, ids))
  {
    if ids != [] {
      RemindEachKeys(cfg, s, ids[..|ids| - 1]);
    }
  }

  /** Exactly the subscriptions that are over become inactive. */
  lemma {:induction false} DeactivateEachAt(s: State, ids: seq<SubId>, sid: SubId)
    requires StoredById(s) && sid in s.subs
    ensures var s' := DeactivateEach(s, ids);
            && StoredById(s') && sid in s'.subs && s'.now == s.now
            && s'.subs[sid] == (if Over(s, sid) && sid in ids then s.subs[sid].(active := false) else s.subs[sid])
  {
    if ids != [] {
      var rest, last := ids[..|ids| - 1], ids[|ids| - 1];
      DeactivateEachAt(s, rest, sid);
      assert ids == rest + [last];
    }
  }

  // ---- how many

  ghost function OverSet(s: State): set<SubId> {
    set sid | sid in s.subs && Over(s, sid)
  }

  /** How many of the listed subscriptions are over. */
  ghost function CountOver(s: State, ids: seq<SubId>): nat {
    if ids == [] then 0 else CountOver(s, ids[..|ids| - 1]) + if Over(s, ids[|ids| - 1]) then 1 else 0
  }

  /** The listed subscriptions that are over. */
  ghost function OverAmong(s: State, ids: seq<SubId>): set<SubId> {
    set sid | sid in ids && Over(s, sid)
  }

  lemma OverAmongSnoc(s: State, ids: seq<SubId>, last: SubId)
    requires last !in ids
    ensures last !in OverAmong(s, ids)
    ensures OverAmong(s, ids + [last]) == OverAmong(s, ids) + if Over(s, last) then {last} else {}
  {
    hide Over;
  }

  lemma {:induction false} CountOverSet(s: State, ids: seq<SubId>)
    requires Distinct(ids)
    ensures CountOver(s, ids) == |OverAmong(s, ids)|
  {
    hide Over;
    if ids == [] {
      assert OverAmong(s, ids) == {};
    } else {
      hide OverAmong, Distinct;
      var rest, last := ids[..|ids| - 1], ids[|ids| - 1];
      Unsnoc(ids);
      CountOverSet(s, rest);
      OverAmongSnoc(s, rest, last);
      InsertSize(OverAmong(s, rest), last);
    }
  }

  lemma CountsAllOver(s: State, ids: seq<SubId>)
    requires Distinct(ids) && ListsActive(s, ids)
    ensures CountOver(s, ids) == |OverSet(s)|
  {
    hide CountOver;
    CountOverSet(s, ids);
    assert OverSet(s) == OverAmong(s, ids);
  }

  /** The subscriptions still on the list are as they were. */
  ghost predicate Untouched(subs: map<SubId, Subscription>, all: map<SubId, Subscription>, ids: seq<SubId>) {
    forall k :: 0 <= k < |ids| ==> ids[k] in all && ids[k] in subs && subs[ids[k]] == all[ids[k]] && all[ids[k]].id == ids[k]
  }

  lemma OneLess(subs: map<SubId, Subscription>, subs': map<SubId, Subscription>, all: map<SubId, Subscription>,
                ids: seq<SubId>, i: nat)
    requires i < |ids| && Distinct(ids) && Untouched(subs, all, ids[i..])
    requires forall sid :: sid in subs && sid != ids[i] ==> sid in subs' && subs'[sid] == subs[sid]
    ensures Untouched(subs', all, ids[i + 1..])
  {
    forall k | i < k < |ids|
      ensures ids[k] != ids[i] && ids[k] in all && ids[k] in subs && subs[ids[k]] == all[ids[k]] && all[ids[k]].id == ids[k]
    {
      assert ids[i..][k - i] == ids[k];
    }
  }

  lemma Head(subs: map<SubId, Subscription>, all: map<SubId, Subscription>, ids: seq<SubId>, i: nat)
    requires i < |ids| && Untouched(subs, all, ids[i..])
    ensures ids[i] in all && ids[i] in subs && subs[ids[i]] == all[ids[i]] && all[ids[i]].id == ids[i]
    ensures ids[..i + 1] != [] && ids[..i + 1][..i] == ids[..i] && ids[..i + 1][i] == ids[i]
  {
    assert ids[i..][0] == ids[i];
  }

  // ---- the service

  class ExpiryService {
    const cfg: Config
    const db: Database

    constructor (cfg: Config, db: Database)
      ensures this.cfg == cfg && this.db == db
    {
      this.cfg, this.db := cfg, db;
    }

    /**
     Reminds every user whose subscription ends soon, once per period, and counts the
     reminders.  The notifier throws for the `broken` ones, which ends the pass.
     */
    method SendExpiryReminders(now: Time, broken: set<SubId>) returns (r: Result<nat>, ghost ids: seq<SubId>, ghost done: nat)
      requires db.Valid()
      modifies db`reminders, db.subs
      ensures db.Valid()
      ensures ListsActive(old(db.State(now)), ids) && Distinct(ids) && done <= |ids|
      ensures db.State(now) == RemindEach(cfg, old(db.State(now)), ids[..done])
      ensures r.Ok? <==> forall sid :: Due(cfg, old(db.State(now)), sid) ==> sid !in broken
      ensures r.Ok? ==> done == |ids| && r.value == |db.reminders| - |old(db.reminders)| == |DueSet(cfg, old(db.State(now)))|
      ensures r.Err? ==> done < |ids| && ids[done] in broken && Due(cfg, old(db.State(now)), ids[done])
    {
      hide Untouched, RemindEach, Remind, Distinct, DueSet, OrderRepository.Valid, RefundRepository.Valid, SubscriptionRepository.Valid;
      ghost var before := db.State(now);
      var all := db.subs.byId;
      var list := db.subs.ListActive();
      ids, done := list, 0;
      var sent := 0;
      Start(cfg, before, list, db.subs);
      for i := 0 to |list|
        invariant done == i && db.Valid() && db.State(now) == RemindEach(cfg, before, list[..i])
        invariant Untouched(db.subs.byId, all, list[i..])
        invariant sent == |db.reminders| - |old(db.reminders)|
        invariant forall k :: 0 <= k < i && list[k] in broken ==> !Due(cfg, before, list[k])
      {
        Head(db.subs.byId, all, list, i);
        ghost var subs := db.subs.byId;
        ghost var s := db.State(now);
        RemindEachNext(cfg, before, list, i);
        var sub := all[list[i]];
        assert sub.active by {
          assert list[i] in list;
        }
        if sub.expiresAt > now && sub.expiresAt <= now + cfg.reminderWindowMs && sub.notifiedAt == None {
          if sub.id in broken {
            r := Err(ProviderFailure);
            return;
          }
          db.reminders := db.reminders + [Reminder(sub.id, sub.expiresAt)];
          db.subs.Update(sub.(notifiedAt := Some(now)));
          sent := sent + 1;
        }
        RemindIs(cfg, s, db.State(now), list[i]);
        OneLess(subs, db.subs.byId, all, list, i);
        done := done + 1;
      }
      assert list[..|list|] == list;
      SendsAllDue(cfg, before, list);
      DueAreListed(cfg, before, list);
      r := Ok(sent);
    }

    /**
     Deactivates every subscription that is over, notifies its user, and counts.  The
     notifier throws for the `broken` ones; their record has changed by then.
     */
    method DeactivateExpired(now: Time, broken: set<SubId>) returns (r: Result<nat>, ghost ids: seq<SubId>, ghost done: nat)
      requires db.Valid()
      modifies db`expiries, db.subs
      ensures db.Valid()
      ensures ListsActive(old(db.State(now)), ids) && Distinct(ids) && done <= |ids|
      ensures db.State(now) == DeactivateEach(old(db.State(now)), if r.Ok? then ids else if done < |ids| then ids[..done + 1] else [])
      ensures db.expiries == old(db.expiries) + OverList(old(db.State(now)), ids[..done])
      ensures r.Ok? <==> forall sid :: Over(old(db.State(now)), sid) ==> sid !in broken
      ensures r.Ok? ==> done == |ids| && r.value == |OverSet(old(db.State(now)))|
      ensures r.Err? ==> done < |ids| && ids[done] in broken && Over(old(db.State(now)), ids[done])
    {
      hide Untouched, DeactivateEach, Deactivate, Distinct, CountOver, OverSet, OverList;
      hide OrderRepository.Valid, RefundRepository.Valid, SubscriptionRepository.Valid;
      ghost var before := db.State(now);
      var all := db.subs.byId;
      var list := db.subs.ListActive();
      ids, done := list, 0;
      var deactivated := 0;
      Start(cfg, before, list, db.subs);
      for i := 0 to |list|
        invariant done == i && db.Valid() && db.State(now) == DeactivateEach(before, list[..i])
        invariant Untouched(db.subs.byId, all, list[i..])
        invariant deactivated == CountOver(before, list[..i])
        invariant db.expiries == old(db.expiries) + OverList(before, list[..i])
        invariant forall k :: 0 <= k < i && list[k] in broken ==> !Over(before, list[k])
      {
        Head(db.subs.byId, all, list, i);
        ghost var subs := db.subs.byId;
        ghost var s := db.State(now);
        DeactivateEachNext(before, list, i);
        var sub := all[list[i]];
        assert sub.active by {
          assert list[i] in list;
        }
        if sub.expiresAt <= now {
          db.subs.Update(sub.(active := false));
          DeactivateIs(s, db.State(now), list[i]);
          if sub.id in broken {
            r := Err(ProviderFailure);
            return;
          }
          db.expiries := db.expiries + [sub.id];
          deactivated := deactivated + 1;
        }
        DeactivateIs(s, db.State(now), list[i]);
        OneLess(subs, db.subs.byId, all, list, i);
        done := done + 1;
      }
      assert list[..|list|] == list;
      CountsAllOver(before, list);
      OverAreListed(before, list);
      r := Ok(deactivated);
    }
  }

  /** The listed subscriptions that are over, in order. */
  ghost function OverList(s: State, ids: seq<SubId>): seq<SubId> {
    if ids == [] then [] else
      OverList(s, ids[..|ids| - 1]) + if Over(s, ids[|ids| - 1]) then [ids[|ids| - 1]] else []
  }

  lemma DueAreListed(cfg: Config, s: State, ids: seq<SubId>)
    requires ListsActive(s, ids)
    ensures forall sid :: Due(cfg, s, sid) ==> sid in ids
  {
  }

  lemma OverAreListed(s: State, ids: seq<SubId>)
    requires ListsActive(s, ids)
    ensures forall sid :: Over(s, sid) ==> sid in ids
  {
  }

  lemma Start(cfg: Config, s: State, ids: seq<SubId>, subs: SubscriptionRepository)
    requires subs.Valid() && s.subs == subs.byId && ListsActive(s, ids)
    ensures StoredById(s)
    ensures RemindEach(cfg, s, ids[..0]) == s && DeactivateEach(s, ids[..0]) == s && CountOver(s, ids[..0]) == 0 && OverList(s, ids[..0]) == []
    ensures Untouched(s.subs, s.subs, ids[0..])
  {
    forall k | 0 <= k < |ids|
      ensures ids[k] in s.subs && s.subs[ids[k]].id == ids[k]
    {
      var sid := ids[k];
      assert sid in ids;
    }
  }

  lemma SendsAllDue(cfg: Config, s: State, ids: seq<SubId>)
    requires StoredById(s) && Distinct(ids) && ListsActive(s, ids)
    ensures |RemindEach(cfg, s, ids).reminders| == |s.reminders| + |DueSet(cfg, s)|
  {
    RemindEachSends(cfg, s, ids);
    assert DueSet(cfg, s) == DueAmong(cfg, s, ids);
  }

  lemma RemindEachNext(cfg: Config, s: State, ids: seq<SubId>, i: nat)
    requires i < |ids|
    ensures RemindEach(cfg, s, ids[..i + 1]) == Remind(cfg, RemindEach(cfg, s, ids[..i]), ids[i])
  {
    assert ids[..i + 1][..i] == ids[..i];
  }

  lemma DeactivateEachNext(s: State, ids: seq<SubId>, i: nat)
    requires i < |ids|
    ensures DeactivateEach(s, ids[..i + 1]) == Deactivate(DeactivateEach(s, ids[..i]), ids[i])
    ensures CountOver(s, ids[..i + 1]) == CountOver(s, ids[..i]) + if Over(s, ids[i]) then 1 else 0
    ensures OverList(s, ids[..i + 1]) == OverList(s, ids[..i]) + if Over(s, ids[i]) then [ids[i]] else []
  {
    assert ids[..i + 1][..i] == ids[..i];
  }

  lemma RemindIs(cfg: Config, s: State, s': State, sid: SubId)
    requires sid in s.subs && s.subs[sid].id == sid
    requires DueForReminder(cfg, s, s.subs[sid]) ==>
               s' == StoreSub(s, s.subs[sid].(notifiedAt := Some(s.now))).(reminders := s.reminders + [Reminder(sid, s.subs[sid].expiresAt)])
    requires !DueForReminder(cfg, s, s.subs[sid]) ==> s' == s
    ensures s' == Remind(cfg, s, sid)
  {
  }

  lemma DeactivateIs(s: State, s': State, sid: SubId)
    requires sid in s.subs && s.subs[sid].id == sid && s.subs[sid].active
    requires s' == if s.subs[sid].expiresAt <= s.now then StoreSub(s, s.subs[sid].(active := false)) else s
    ensures s' == Deactivate(s, sid)
  {
  }
}
