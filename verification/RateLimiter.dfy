/**
 The in-process fixed-window rate limiter.  A trace is a sequence of requests and
 clean-up sweeps with a non-decreasing clock.
 */
module RateLimiter {

  type Key = string
  datatype Window = Window(count: nat, resetAt: int)
  type Windows = map<Key, Window>

  /** At most `max` requests per key in a window of `windowMs`. */
  datatype Config = Config(max: nat, windowMs: nat)

  datatype Decision = Decision(allowed: bool, limit: nat, remaining: nat, resetAt: int, retryAfterSec: int)

  // ---- one step

  /** The window a request at `t` counts into, before counting it. */
  function Current(cfg: Config, windows: Windows, key: Key, t: int): Window {
    if key in windows && windows[key].resetAt > t then windows[key] else Window(0, t + cfg.windowMs)
  }

  function CheckStep(cfg: Config, windows: Windows, key: Key, t: int): Windows {
    var w := Current(cfg, windows, key, t);
    windows[key := Window(w.count + 1, w.resetAt)]
  }

  function CeilSeconds(ms: int): int {
    (ms + 999) / 1000
  }

  function Decide(cfg: Config, windows: Windows, key: Key, t: int): Decision {
    var w := Current(cfg, windows, key, t);
    var n := w.count + 1;
    var seconds := CeilSeconds(w.resetAt - t);
    Decision(n <= cfg.max, cfg.max, if n <= cfg.max then cfg.max - n else 0, w.resetAt,
             if seconds < 1 then 1 else seconds)
  }

  function SweepStep(windows: Windows, t: int): Windows {
    map k | k in windows && windows[k].resetAt > t :: windows[k]
  }

  // ---- the limiter object

  class RateLimiter {
    var windows: Windows
    const cfg: Config

    constructor (cfg: Config)
      ensures this.cfg == cfg && windows == map[]
    {
      this.cfg := cfg;
      windows := map[];
    }

    /** Counts a request and decides whether it is allowed. */
    method Check(key: Key, t: int) returns (d: Decision)
      modifies this
      ensures windows == CheckStep(cfg, old(windows), key, t)
      ensures d == Decide(cfg, old(windows), key, t)
    {
      if key !in windows || windows[key].resetAt <= t {
        windows := windows[key := Window(0, t + cfg.windowMs)];
      }
      windows := windows[key := windows[key].(count := windows[key].count + 1)];
      var w := windows[key];
      var allowed := w.count <= cfg.max;
      var remaining := if cfg.max - w.count > 0 then cfg.max - w.count else 0;
      var seconds := CeilSeconds(w.resetAt - t);
      d := Decision(allowed, cfg.max, remaining, w.resetAt, if seconds > 1 then seconds else 1);
    }

    /** Drops the windows that have expired. */
    method Sweep(t: int)
      modifies this
      ensures windows == SweepStep(old(windows), t)
    {
      var todo := windows.Keys;
      while todo != {}
        invariant todo <= old(windows).Keys
        invariant windows == map k | k in old(windows) && (k in todo || old(windows)[k].resetAt > t) :: old(windows)[k]
        decreases |todo|
      {
        var key :| key in todo;
        if windows[key].resetAt <= t {
          windows := windows - {key};
        }
        todo := todo - {key};
      }
    }
  }

  // ---- traces

  datatype Event = Request(key: Key, at: int) | Sweep(at: int)

  ghost predicate Ordered(events: seq<Event>) {
    forall i, j :: 0 <= i < j < |events| ==> events[i].at <= events[j].at
  }

  function Step(cfg: Config, windows: Windows, e: Event): Windows {
    match e
    case Request(key, at) => CheckStep(cfg, windows, key, at)
    case Sweep(at) => SweepStep(windows, at)
  }

  function Final(cfg: Config, events: seq<Event>): Windows {
    if events == [] then map[] else Step(cfg, Final(cfg, events[..|events| - 1]), events[|events| - 1])
  }

  /** The decisions of a trace, in order; sweeps decide nothing. */
  function Decisions(cfg: Config, events: seq<Event>): seq<Decision> {
    if events == [] then [] else
      var (before, e) := (events[..|events| - 1], events[|events| - 1]);
      Decisions(cfg, before) + if e.Request? then [Decide(cfg, Final(cfg, before), e.key, e.at)] else []
  }

  function WithoutSweeps(events: seq<Event>): seq<Event> {
    if events == [] then [] else
      var (before, e) := (events[..|events| - 1], events[|events| - 1]);
      WithoutSweeps(before) + if e.Request? then [e] else []
  }

  // ---- sweeping is invisible

  /** The two window maps agree, except that `swept` may lack windows expired at `t`. */
  ghost predicate Agree(swept: Windows, full: Windows, t: int) {
    && (forall k :: k in swept ==> k in full && full[k] == swept[k])
    && (forall k :: k in full && k !in swept ==> full[k].resetAt <= t)
  }

  lemma Unfold(cfg: Config, before: seq<Event>, e: Event)
    ensures Final(cfg, before + [e]) == Step(cfg, Final(cfg, before), e)
    ensures Decisions(cfg, before + [e]) ==
            Decisions(cfg, before) + if e.Request? then [Decide(cfg, Final(cfg, before), e.key, e.at)] else []
    ensures forall key, from, to ::
              CountAllowed(cfg, before + [e], key, from, to) == CountAllowed(cfg, before, key, from, to) +
                if from <= e.at < to && Allowed(cfg, before, e, key) then 1 else 0
  {
    hide Step, Decide, Allowed;
    assert (before + [e])[..|before|] == before;
  }

  lemma AgreeStep(cfg: Config, swept: Windows, full: Windows, t: int, key: Key, at: int)
    requires Agree(swept, full, t) && t <= at
    ensures Agree(CheckStep(cfg, swept, key, at), CheckStep(cfg, full, key, at), at)
    ensures Decide(cfg, swept, key, at) == Decide(cfg, full, key, at)
    ensures Agree(SweepStep(swept, at), full, at)
  {
  }

  lemma {:induction false} SweepInvisible(cfg: Config, events: seq<Event>, t: int)
    requires Ordered(events) && (events != [] ==> events[|events| - 1].at <= t)
    ensures Agree(Final(cfg, events), Final(cfg, WithoutSweeps(events)), t)
    ensures Decisions(cfg, events) == Decisions(cfg, WithoutSweeps(events))
  {
    if events == [] {
      AgreeStart(cfg, t);
    } else {
      hide *;
      var n := |events| - 1;
      var (before, e) := (events[..n], events[n]);
      OrderedPrefix(events);
      SweepInvisible(cfg, before, e.at);
      assert events == before + [e];
      SweepInvisibleStep(cfg, before, e, t);
    }
  }

  lemma OrderedPrefix(events: seq<Event>)
    requires Ordered(events) && events != []
    ensures var n := |events| - 1;
            Ordered(events[..n]) && (n > 0 ==> events[..n][n - 1].at <= events[n].at)
  {
  }

  lemma AgreeStart(cfg: Config, t: int)
    ensures Agree(Final(cfg, []), Final(cfg, WithoutSweeps([])), t)
    ensures Decisions(cfg, []) == Decisions(cfg, WithoutSweeps([]))
  {
  }

  lemma WithoutSweepsSnoc(before: seq<Event>, e: Event)
    ensures WithoutSweeps(before + [e]) == if e.Request? then WithoutSweeps(before) + [e] else WithoutSweeps(before)
  {
    assert (before + [e])[..|before|] == before;
  }

  lemma SweepInvisibleStep(cfg: Config, before: seq<Event>, e: Event, t: int)
    requires e.at <= t
    requires Agree(Final(cfg, before), Final(cfg, WithoutSweeps(before)), e.at)
    requires Decisions(cfg, before) == Decisions(cfg, WithoutSweeps(before))
    ensures Agree(Final(cfg, before + [e]), Final(cfg, WithoutSweeps(before + [e])), t)
    ensures Decisions(cfg, before + [e]) == Decisions(cfg, WithoutSweeps(before + [e]))
  {
    hide Final, Decisions, CheckStep, SweepStep, Decide, WithoutSweeps;
    var kept := WithoutSweeps(before);
    WithoutSweepsSnoc(before, e);
    Unfold(cfg, before, e);
    AgreeStep(cfg, Final(cfg, before), Final(cfg, kept), e.at, if e.Request? then e.key else "", e.at);
    if e.Request? {
      Unfold(cfg, kept, e);
    }
  }

  /** Sweeping, whenever it happens, changes no decision. */
  lemma SweepsChangeNoDecision(cfg: Config, events: seq<Event>)
    requires Ordered(events)
    ensures Decisions(cfg, events) == Decisions(cfg, WithoutSweeps(events))
  {
    SweepInvisible(cfg, events, if events == [] then 0 else events[|events| - 1].at);
  }

  // ---- how many requests get through

  ghost predicate Allowed(cfg: Config, before: seq<Event>, e: Event, key: Key) {
    e.Request? && e.key == key && Decide(cfg, Final(cfg, before), key, e.at).allowed
  }

  /** The allowed requests for `key` with a time in [from, to). */
  ghost function CountAllowed(cfg: Config, events: seq<Event>, key: Key, from: int, to: int): nat {
    if events == [] then 0 else
      var (before, e) := (events[..|events| - 1], events[|events| - 1]);
      CountAllowed(cfg, before, key, from, to) +
      if from <= e.at < to && Allowed(cfg, before, e, key) then 1 else 0
  }

  function Min(a: int, b: int): int {
    if a < b then a else b
  }

  /**
   What the interval [from, from + windowMs) can have let through, by where the
   key's window starts.  The first request of a window is at its very start, so a
   window begun before the interval contributes at most max - 1.
   */
  ghost predicate Budget(cfg: Config, windows: Windows, key: Key, from: int, now: int, count: nat) {
    var to := from + cfg.windowMs;
    && count <= 2 * cfg.max - 1
    && (now < from ==> count == 0)
    && (key !in windows && now < to ==> count <= cfg.max - 1)
    && (key in windows ==>
          var w := windows[key];
          var start := w.resetAt - cfg.windowMs;
          w.count >= 1 && start <= now
          && (start < from ==> count <= Min(w.count, cfg.max) - 1)
          && (from <= start < to ==> count <= cfg.max - 1 + Min(w.count, cfg.max)))
  }

  lemma {:induction false} BudgetHolds(cfg: Config, events: seq<Event>, key: Key, from: int, now: int)
    requires Ordered(events) && cfg.max >= 1
    requires events != [] ==> events[|events| - 1].at <= now
    ensures Budget(cfg, Final(cfg, events), key, from, now, CountAllowed(cfg, events, key, from, from + cfg.windowMs))
  {
    if events != [] {
      var n := |events| - 1;
      BudgetHolds(cfg, events[..n], key, from, events[n].at);
    }
  }

  /** The same for a window of one millisecond, which meets no window but its own. */
  ghost predicate MilliBudget(cfg: Config, windows: Windows, key: Key, from: int, now: int, count: nat) {
    && count <= cfg.max
    && (now < from ==> count == 0)
    && (key in windows ==> windows[key].resetAt <= now + 1)
    && (now <= from ==>
          if key in windows && windows[key].resetAt == from + 1 then count <= Min(windows[key].count, cfg.max) else count == 0)
  }

  lemma {:induction false} MilliBudgetHolds(cfg: Config, events: seq<Event>, key: Key, from: int, now: int)
    requires Ordered(events) && cfg.windowMs == 1
    requires events != [] ==> events[|events| - 1].at <= now
    ensures MilliBudget(cfg, Final(cfg, events), key, from, now, CountAllowed(cfg, events, key, from, from + 1))
  {
    if events != [] {
      var n := |events| - 1;
      MilliBudgetHolds(cfg, events[..n], key, from, events[n].at);
    }
  }

  /** The most that an interval of the window's length lets through. */
  function MostAllowed(cfg: Config): nat {
    if cfg.max == 0 || cfg.windowMs == 0 then 0
    else if cfg.windowMs == 1 then cfg.max
    else 2 * cfg.max - 1
  }

  /**
   In every trace, any half-open interval of the window's length lets at most
   2 * max - 1 requests of a key through, and at most max if it is one millisecond.
   */
  lemma AtMostTwoWindows(cfg: Config, events: seq<Event>, key: Key, from: int)
    requires Ordered(events)
    ensures CountAllowed(cfg, events, key, from, from + cfg.windowMs) <= MostAllowed(cfg)
  {
    if cfg.max == 0 || cfg.windowMs == 0 {
      NothingAllowed(cfg, events, key, from);
    } else if cfg.windowMs == 1 {
      MilliBudgetHolds(cfg, events, key, from, if events == [] then 0 else events[|events| - 1].at);
    } else {
      BudgetHolds(cfg, events, key, from, if events == [] then 0 else events[|events| - 1].at);
    }
  }

  lemma {:induction false} NothingAllowed(cfg: Config, events: seq<Event>, key: Key, from: int)
    requires cfg.max == 0 || cfg.windowMs == 0
    ensures CountAllowed(cfg, events, key, from, from + cfg.windowMs) == 0
  {
    if events != [] {
      NothingAllowed(cfg, events[..|events| - 1], key, from);
    }
  }

  // ---- the bound is reached

  function Burst(key: Key, t: int, n: nat): seq<Event> {
    seq(n, i => Request(key, t))
  }

  /** A burst in an open window is let through as long as the window has room. */
  lemma {:induction false} BurstAllowed(cfg: Config, events: seq<Event>, key: Key, t: int, n: nat, from: int, to: int)
    requires from <= t < to
    requires Current(cfg, Final(cfg, events), key, t).count + n <= cfg.max && cfg.windowMs > 0
    ensures CountAllowed(cfg, events + Burst(key, t, n), key, from, to) == CountAllowed(cfg, events, key, from, to) + n
    ensures var w := Current(cfg, Final(cfg, events), key, t);
            Current(cfg, Final(cfg, events + Burst(key, t, n)), key, t) == Window(w.count + n, w.resetAt)
    ensures n > 0 ==> key in Final(cfg, events + Burst(key, t, n))
    ensures n > 0 ==> Final(cfg, events + Burst(key, t, n))[key] == Current(cfg, Final(cfg, events + Burst(key, t, n)), key, t)
  {
    hide Final, CountAllowed;
    var all := events + Burst(key, t, n);
    if n == 0 {
      assert all == events;
    } else {
      BurstAllowed(cfg, events, key, t, n - 1, from, to);
      assert all == (events + Burst(key, t, n - 1)) + [Request(key, t)];
      Unfold(cfg, events + Burst(key, t, n - 1), Request(key, t));
    }
  }

  /**
   One request, max - 1 more just before the window closes, then max in the next
   window; a window of one millisecond has room for one burst.
   */
  function WorstTrace(cfg: Config, key: Key): seq<Event> {
    if cfg.max == 0 || cfg.windowMs == 0 then []
    else if cfg.windowMs == 1 then Burst(key, 1, cfg.max)
    else [Request(key, 0)] + Burst(key, cfg.windowMs - 1, cfg.max - 1) + Burst(key, cfg.windowMs, cfg.max)
  }

  /** For every limiter there is a trace that reaches the bound. */
  lemma BoundIsReached(cfg: Config, key: Key)
    ensures Ordered(WorstTrace(cfg, key))
    ensures CountAllowed(cfg, WorstTrace(cfg, key), key, 1, 1 + cfg.windowMs) == MostAllowed(cfg)
  {
    WorstOrdered(cfg, key);
    if cfg.max > 0 && cfg.windowMs == 1 {
      BurstAllowed(cfg, [], key, 1, cfg.max, 1, 2);
      assert [] + Burst(key, 1, cfg.max) == Burst(key, 1, cfg.max);
    } else if cfg.max > 0 && cfg.windowMs >= 2 {
      TwoWindowsReached(cfg, key);
    }
  }

  lemma TwoWindowsReached(cfg: Config, key: Key)
    requires cfg.max >= 1 && cfg.windowMs >= 2
    ensures CountAllowed(cfg, WorstTrace(cfg, key), key, 1, 1 + cfg.windowMs) == 2 * cfg.max - 1
  {
    hide Final, CountAllowed, Current, Burst;
    var (w, m) := (cfg.windowMs, cfg.max);
    var first := [Request(key, 0)];
    FirstRequest(cfg, key);
    BurstAllowed(cfg, first, key, w - 1, m - 1, 1, 1 + w);
    var second := first + Burst(key, w - 1, m - 1);
    NextWindow(cfg, key);
    BurstAllowed(cfg, second, key, w, m, 1, 1 + w);
  }

  lemma WorstOrdered(cfg: Config, key: Key)
    ensures Ordered(WorstTrace(cfg, key))
  {
  }

  lemma FirstRequest(cfg: Config, key: Key)
    requires cfg.windowMs >= 2
    ensures Final(cfg, [Request(key, 0)]) == map[key := Window(1, cfg.windowMs)]
    ensures CountAllowed(cfg, [Request(key, 0)], key, 1, 1 + cfg.windowMs) == 0
    ensures Current(cfg, Final(cfg, [Request(key, 0)]), key, cfg.windowMs - 1) == Window(1, cfg.windowMs)
  {
    assert [Request(key, 0)][..0] == [];
  }

  lemma NextWindow(cfg: Config, key: Key)
    requires cfg.max >= 1 && cfg.windowMs >= 2
    ensures Current(cfg, Final(cfg, [Request(key, 0)] + Burst(key, cfg.windowMs - 1, cfg.max - 1)), key, cfg.windowMs) ==
            Window(0, 2 * cfg.windowMs)
  {
    hide Final, CountAllowed, Burst;
    FirstRequest(cfg, key);
    BurstAllowed(cfg, [Request(key, 0)], key, cfg.windowMs - 1, cfg.max - 1, 1, 1 + cfg.windowMs);
    if cfg.max == 1 {
      NoBurst(key, cfg.windowMs - 1);
      assert [Request(key, 0)] + [] == [Request(key, 0)];
    }
  }

  lemma NoBurst(key: Key, t: int)
    ensures Burst(key, t, 0) == []
  {
  }

  // ---- what a decision tells the client

  /** While its window lasts, the key has exactly `remaining` requests left. */
  lemma RemainingIsExact(cfg: Config, windows: Windows, key: Key, t: int, later: int)
    requires t <= later < Decide(cfg, windows, key, t).resetAt
    ensures var d := Decide(cfg, windows, key, t); var next := Decide(cfg, CheckStep(cfg, windows, key, t), key, later);
            && next.resetAt == d.resetAt && (next.allowed <==> d.remaining > 0)
            && (next.allowed ==> next.remaining == d.remaining - 1)
  {
  }

  /** A sweep drops exactly the windows whose end has come. */
  lemma SweepDropsEnded(windows: Windows, t: int, key: Key)
    ensures key in SweepStep(windows, t) <==> key in windows && t < windows[key].resetAt
    ensures key in SweepStep(windows, t) ==> SweepStep(windows, t)[key] == windows[key]
  {
  }

  /** A request after the end of the last window, or the first of its key, opens a window of the full length. */
  lemma OpensWindow(cfg: Config, windows: Windows, key: Key, t: int)
    requires key in windows ==> windows[key].resetAt <= t
    ensures var d := Decide(cfg, windows, key, t);
            && d.resetAt - t == cfg.windowMs && (d.allowed <==> cfg.max > 0)
            && (d.allowed ==> d.remaining == cfg.max - 1)
  {
  }

  /** Every decision names the limit, leaves none when it denies, and advises the least whole seconds until the reset, but at least one. */
  lemma AdviceIs(cfg: Config, windows: Windows, key: Key, t: int)
    ensures var d := Decide(cfg, windows, key, t);
            && d.limit == cfg.max && (!d.allowed ==> d.remaining == 0)
            && d.retryAfterSec >= 1 && d.resetAt <= t + 1000 * d.retryAfterSec
            && (d.retryAfterSec > 1 ==> t + 1000 * (d.retryAfterSec - 1) < d.resetAt)
  {
  }

  /** Waiting the advised seconds is enough for a new window, and fewer whole seconds, if any, are not. */
  lemma RetryAfterIsExact(cfg: Config, windows: Windows, key: Key, t: int, later: int)
    requires cfg.max >= 1 && cfg.windowMs >= 1
    ensures var d := Decide(cfg, windows, key, t);
            && (later >= t + 1000 * d.retryAfterSec ==> Decide(cfg, CheckStep(cfg, windows, key, t), key, later).allowed)
            && (!d.allowed && d.retryAfterSec > 1 && t <= later <= t + 1000 * (d.retryAfterSec - 1) ==>
                  !Decide(cfg, CheckStep(cfg, windows, key, t), key, later).allowed)
  {
  }
}
