/**
 The in-process locker: each key owns a chain of promises, and every caller appends
 its own promise to the chain and waits for the one before it.

 A call of withLock runs in separate turns of the event loop, between which other
 calls run: it arrives (links its promise into the chain), enters once the previous
 promise has settled, performs the actions of its critical section one by one, and
 leaves (opens its gate and, if it is still the tail, removes the tail entry).
 Promises settle some time after their gate has opened.  The model lets these turns
 interleave in every possible order.
 */
module Locker {
  import opened Wrappers

  type Key = string
  type Ticket = nat

  datatype Phase = Waiting | Running | Done

  /** One call: the promise it waits for, how far it has come, and whether its own promise has settled. */
  datatype Call = Call(key: Key, prev: Option<Ticket>, phase: Phase, settled: bool)

  /** All calls in order of arrival, the tail of each chain, and the actions performed so far. */
  datatype State = State(calls: seq<Call>, tails: map<Key, Ticket>, log: seq<Ticket>)

  const INITIAL := State([], map[], [])

  // ---- the turns of a call

  function Arrive(s: State, key: Key): State {
    var prev := if key in s.tails then Some(s.tails[key]) else None;
    s.(calls := s.calls + [Call(key, prev, Waiting, false)], tails := s.tails[key := |s.calls|])
  }

  /** The promise that call `t` waits for has settled. */
  predicate TurnHasCome(s: State, t: Ticket) {
    t < |s.calls| &&
    match s.calls[t].prev
    case None => true
    case Some(p) => p < |s.calls| && s.calls[p].settled
  }

  predicate CanSettle(s: State, t: Ticket) {
    t < |s.calls| && s.calls[t].phase == Done && TurnHasCome(s, t)
  }

  function Settle(s: State, t: Ticket): State
    requires CanSettle(s, t)
  {
    s.(calls := s.calls[t := s.calls[t].(settled := true)])
  }

  predicate CanEnter(s: State, t: Ticket) {
    t < |s.calls| && s.calls[t].phase == Waiting && TurnHasCome(s, t)
  }

  function Enter(s: State, t: Ticket): State
    requires CanEnter(s, t)
  {
    s.(calls := s.calls[t := s.calls[t].(phase := Running)])
  }

  predicate IsRunning(s: State, t: Ticket) {
    t < |s.calls| && s.calls[t].phase == Running
  }

  function Act(s: State, t: Ticket): State
    requires IsRunning(s, t)
  {
    s.(log := s.log + [t])
  }

  function Leave(s: State, t: Ticket): State
    requires IsRunning(s, t)
  {
    var key := s.calls[t].key;
    s.(calls := s.calls[t := s.calls[t].(phase := Done)],
       tails := if key in s.tails && s.tails[key] == t then s.tails - {key} else s.tails)
  }

  ghost predicate Next(s: State, s': State) {
    || (exists key :: s' == Arrive(s, key))
    || (exists t :: CanSettle(s, t) && s' == Settle(s, t))
    || (exists t :: CanEnter(s, t) && s' == Enter(s, t))
    || (exists t :: IsRunning(s, t) && s' == Act(s, t))
    || (exists t :: IsRunning(s, t) && s' == Leave(s, t))
  }

  /** A run: any interleaving of turns, of any length. */
  ghost predicate IsRun(run: seq<State>) {
    run != [] && run[0] == INITIAL && forall i :: 0 <= i < |run| - 1 ==> Next(run[i], run[i + 1])
  }

  // ---- the invariant

  ghost predicate EarlierDone(s: State, t: Ticket) {
    t < |s.calls| && forall u :: 0 <= u < t && s.calls[u].key == s.calls[t].key ==> s.calls[u].phase == Done
  }

  /** `p` is the last call before `t` with the same key. */
  ghost predicate Precedes(s: State, p: Ticket, t: Ticket) {
    p < t < |s.calls| && s.calls[p].key == s.calls[t].key &&
    forall u :: p < u < t ==> s.calls[u].key != s.calls[t].key
  }

  ghost predicate CallOk(s: State, t: Ticket)
    requires t < |s.calls|
  {
    && (s.calls[t].prev.Some? ==> Precedes(s, s.calls[t].prev.value, t))
    && (s.calls[t].prev.None? ==> EarlierDone(s, t))
    && (s.calls[t].phase != Waiting ==> EarlierDone(s, t))
    && (s.calls[t].settled ==> s.calls[t].phase == Done && EarlierDone(s, t))
  }

  /** A tail entry points at the last call of its key; without one, every call of the key is over. */
  ghost predicate TailsOk(s: State) {
    && (forall k :: k in s.tails ==> s.tails[k] < |s.calls| && s.calls[s.tails[k]].key == k)
    && (forall k, u :: k in s.tails && s.tails[k] < u < |s.calls| ==> s.calls[u].key != k)
    && (forall u :: 0 <= u < |s.calls| && s.calls[u].key !in s.tails ==> s.calls[u].phase == Done)
  }

  /** Only calls that have entered act, and on each key they act in order of arrival. */
  ghost predicate LogOk(s: State) {
    && (forall i :: 0 <= i < |s.log| ==> s.log[i] < |s.calls| && s.calls[s.log[i]].phase != Waiting)
    && (forall i, j :: 0 <= i < j < |s.log| && s.calls[s.log[i]].key == s.calls[s.log[j]].key ==> s.log[i] <= s.log[j])
  }

  ghost predicate Inv(s: State) {
    (forall t :: 0 <= t < |s.calls| ==> CallOk(s, t)) && TailsOk(s) && LogOk(s)
  }

  lemma ArriveKeepsInv(s: State, key: Key)
    requires Inv(s)
    ensures Inv(Arrive(s, key))
  {
    var s' := Arrive(s, key);
    forall t | 0 <= t < |s'.calls|
      ensures CallOk(s', t)
    {
      if t < |s.calls| {
        assert CallOk(s, t);
      }
    }
  }

  /** When a call's turn has come, every earlier call of its key has released. */
  lemma TurnMeansEarlierDone(s: State, t: Ticket)
    requires Inv(s) && TurnHasCome(s, t)
    ensures EarlierDone(s, t)
  {
    assert CallOk(s, t);
    match s.calls[t].prev {
      case None =>
      case Some(p) => assert CallOk(s, p);
    }
  }

  lemma UpdateKeepsCalls(s: State, s': State, t: Ticket)
    requires Inv(s) && t < |s.calls| == |s'.calls| && s'.calls == s.calls[t := s'.calls[t]]
    requires s'.calls[t].key == s.calls[t].key && s'.calls[t].prev == s.calls[t].prev
    requires s.calls[t].phase == Done ==> s'.calls[t].phase == Done
    requires EarlierDone(s, t) && (s'.calls[t].settled ==> s'.calls[t].phase == Done)
    ensures forall u :: 0 <= u < |s'.calls| ==> CallOk(s', u)
  {
    forall u | 0 <= u < |s'.calls|
      ensures CallOk(s', u)
    {
      assert CallOk(s, u);
    }
  }

  lemma SettleKeepsInv(s: State, t: Ticket)
    requires Inv(s) && CanSettle(s, t)
    ensures Inv(Settle(s, t))
  {
    TurnMeansEarlierDone(s, t);
    UpdateKeepsCalls(s, Settle(s, t), t);
  }

  lemma EnterKeepsInv(s: State, t: Ticket)
    requires Inv(s) && CanEnter(s, t)
    ensures Inv(Enter(s, t))
  {
    TurnMeansEarlierDone(s, t);
    assert CallOk(s, t);
    UpdateKeepsCalls(s, Enter(s, t), t);
  }

  lemma ActKeepsInv(s: State, t: Ticket)
    requires Inv(s) && IsRunning(s, t)
    ensures Inv(Act(s, t))
  {
    var s' := Act(s, t);
    forall u | 0 <= u < |s'.calls|
      ensures CallOk(s', u)
    {
      assert CallOk(s, u);
    }
    forall i | 0 <= i < |s.log| && s.calls[s.log[i]].key == s.calls[t].key
      ensures s.log[i] <= t
    {
      assert CallOk(s, s.log[i]);
    }
  }

  lemma LeaveKeepsInv(s: State, t: Ticket)
    requires Inv(s) && IsRunning(s, t)
    ensures Inv(Leave(s, t))
  {
    assert CallOk(s, t);
    UpdateKeepsCalls(s, Leave(s, t), t);
  }

  lemma NextKeepsInv(s: State, s': State)
    requires Inv(s) && Next(s, s')
    ensures Inv(s')
  {
    hide Inv, Arrive, Settle, Enter, Act, Leave;
    if key :| s' == Arrive(s, key) {
      ArriveKeepsInv(s, key);
    } else if t :| CanSettle(s, t) && s' == Settle(s, t) {
      SettleKeepsInv(s, t);
    } else if t :| CanEnter(s, t) && s' == Enter(s, t) {
      EnterKeepsInv(s, t);
    } else if t :| IsRunning(s, t) && s' == Act(s, t) {
      ActKeepsInv(s, t);
    } else {
      var t :| IsRunning(s, t) && s' == Leave(s, t);
      LeaveKeepsInv(s, t);
    }
  }

  lemma {:induction false} InvAlways(run: seq<State>, i: nat)
    requires IsRun(run) && i < |run|
    ensures Inv(run[i])
  {
    hide Next;
    if i > 0 {
      InvAlways(run, i - 1);
      NextKeepsInv(run[i - 1], run[i]);
    }
  }

  // ---- what every run guarantees

  /** At most one call per key is in its critical section. */
  lemma MutualExclusion(run: seq<State>, i: nat, t: Ticket, u: Ticket)
    requires IsRun(run) && i < |run| && IsRunning(run[i], t) && IsRunning(run[i], u)
    requires run[i].calls[t].key == run[i].calls[u].key
    ensures t == u
  {
    InvAlways(run, i);
    assert CallOk(run[i], t) && CallOk(run[i], u);
  }

  /** Calls enter in order of arrival: once one has entered, all earlier calls of the key are over. */
  lemma FirstComeFirstServed(run: seq<State>, i: nat, t: Ticket, u: Ticket)
    requires IsRun(run) && i < |run| && t < u < |run[i].calls|
    requires run[i].calls[t].key == run[i].calls[u].key && run[i].calls[u].phase != Waiting
    ensures run[i].calls[t].phase == Done
  {
    InvAlways(run, i);
    assert CallOk(run[i], u);
  }

  /** A key without a tail entry has no call waiting or running, so a fresh chain never overlaps an old one. */
  lemma NoTailMeansIdle(run: seq<State>, i: nat, t: Ticket)
    requires IsRun(run) && i < |run| && t < |run[i].calls| && run[i].calls[t].key !in run[i].tails
    ensures run[i].calls[t].phase == Done
  {
    InvAlways(run, i);
  }

  /** Every tail entry is of a call that is not over: the last one to leave cleans up. */
  ghost predicate TailsLive(s: State) {
    forall k :: k in s.tails ==> s.tails[k] < |s.calls| && s.calls[s.tails[k]].phase != Done
  }

  lemma LeaveKeepsTailsLive(s: State, t: Ticket)
    requires TailsOk(s) && TailsLive(s) && IsRunning(s, t)
    ensures TailsLive(Leave(s, t))
  {
  }

  /** Turns other than arrivals and leaves do not end a call. */
  lemma GoingOnKeepsTailsLive(s: State, s': State)
    requires TailsLive(s) && s'.tails == s.tails && |s'.calls| == |s.calls|
    requires forall u :: 0 <= u < |s.calls| && s.calls[u].phase != Done ==> s'.calls[u].phase != Done
    ensures TailsLive(s')
  {
  }

  lemma NextKeepsTailsLive(s: State, s': State)
    requires TailsOk(s) && TailsLive(s) && Next(s, s')
    ensures TailsLive(s')
  {
    hide TailsLive, TailsOk, Leave;
    if key :| s' == Arrive(s, key) {
      assert TailsLive(s') by { ArriveKeepsTailsLive(s, key); }
    } else if t :| CanSettle(s, t) && s' == Settle(s, t) {
      GoingOnKeepsTailsLive(s, s');
    } else if t :| CanEnter(s, t) && s' == Enter(s, t) {
      GoingOnKeepsTailsLive(s, s');
    } else if t :| IsRunning(s, t) && s' == Act(s, t) {
      GoingOnKeepsTailsLive(s, s');
    } else {
      var t :| IsRunning(s, t) && s' == Leave(s, t);
      LeaveKeepsTailsLive(s, t);
    }
  }

  lemma ArriveKeepsTailsLive(s: State, key: Key)
    requires TailsLive(s)
    ensures TailsLive(Arrive(s, key))
  {
  }

  lemma {:induction false} TailsAlwaysLive(run: seq<State>, i: nat)
    requires IsRun(run) && i < |run|
    ensures TailsLive(run[i])
  {
    if i > 0 {
      hide Next, TailsLive;
      TailsAlwaysLive(run, i - 1);
      InvAlways(run, i - 1);
      NextKeepsTailsLive(run[i - 1], run[i]);
    }
  }

  /** No entry outlives its use: a key has a tail entry exactly while one of its calls is not over. */
  lemma TailMeansBusy(run: seq<State>, i: nat, key: Key)
    requires IsRun(run) && i < |run|
    ensures key in run[i].tails <==>
            exists t: Ticket :: t < |run[i].calls| && run[i].calls[t].key == key && run[i].calls[t].phase != Done
  {
    hide Next;
    InvAlways(run, i);
    TailsAlwaysLive(run, i);
  }

  /** Action `i` of the log was performed by a call for `key`. */
  ghost predicate ActsOn(s: State, i: nat, key: Key) {
    i < |s.log| && s.log[i] < |s.calls| && s.calls[s.log[i]].key == key
  }

  /**
   Critical sections are serial: on each key they follow each other in order of
   arrival, and between two actions of one call no other call of the key acts.
   */
  lemma CriticalSectionsAreSerial(run: seq<State>, n: nat, key: Key, a: nat, b: nat, c: nat)
    requires IsRun(run) && n < |run| && a < b < c
    requires ActsOn(run[n], a, key) && ActsOn(run[n], b, key) && ActsOn(run[n], c, key)
    ensures run[n].log[a] <= run[n].log[b] <= run[n].log[c]
    ensures run[n].log[a] == run[n].log[c] ==> run[n].log[b] == run[n].log[a]
  {
    hide Next;
    InvAlways(run, n);
  }

  // ---- no call waits forever

  /** The unsettled promise of a call that is over, or one before it, can settle. */
  lemma {:induction false} SomeoneCanSettle(s: State, t: Ticket) returns (p: Ticket)
    requires Inv(s) && t < |s.calls| && s.calls[t].phase == Done && !s.calls[t].settled
    ensures p <= t && s.calls[p].key == s.calls[t].key && !s.calls[p].settled && CanSettle(s, p)
    decreases t
  {
    assert CallOk(s, t);
    if TurnHasCome(s, t) {
      return t;
    }
    p := SomeoneCanSettle(s, s.calls[t].prev.value);
  }

  /** A waiting call behind nobody can enter, or a promise before it that has not settled can settle. */
  lemma WaitingIsNotStuck(run: seq<State>, i: nat, t: Ticket)
    requires IsRun(run) && i < |run| && t < |run[i].calls| && run[i].calls[t].phase == Waiting
    requires EarlierDone(run[i], t)
    ensures CanEnter(run[i], t) ||
            exists p: Ticket :: p < t && run[i].calls[p].key == run[i].calls[t].key && !run[i].calls[p].settled && CanSettle(run[i], p)
  {
    var s := run[i];
    InvAlways(run, i);
    assert CallOk(s, t);
    if !TurnHasCome(s, t) {
      var p := SomeoneCanSettle(s, s.calls[t].prev.value);
    }
  }

  /** Turns that take `first` to the last state. */
  ghost predicate Turns(turns: seq<State>, first: State) {
    turns != [] && turns[0] == first && forall i :: 0 <= i < |turns| - 1 ==> Next(turns[i], turns[i + 1])
  }

  function Last(turns: seq<State>): State
    requires turns != []
  {
    turns[|turns| - 1]
  }

  /** The same calls, in the same chains. */
  ghost predicate SameChains(s: State, s': State) {
    |s'.calls| == |s.calls| &&
    forall u :: 0 <= u < |s.calls| ==> s'.calls[u].prev == s.calls[u].prev && s'.calls[u].key == s.calls[u].key
  }

  lemma OneMoreTurn(turns: seq<State>, first: State, next: State)
    requires Turns(turns, first) && Inv(Last(turns)) && SameChains(first, Last(turns))
    requires Next(Last(turns), next) && SameChains(Last(turns), next)
    ensures Turns(turns + [next], first) && Inv(next) && SameChains(first, next)
  {
    hide Next, Inv;
    NextKeepsInv(Last(turns), next);
    var all := turns + [next];
    forall i | 0 <= i < |all| - 1
      ensures Next(all[i], all[i + 1])
    {
      if i == |turns| - 1 {
        assert all[i] == Last(turns) && all[i + 1] == next;
      }
    }
  }

  /** Turns from one state to another, and on from there. */
  lemma MoreTurns(a: seq<State>, first: State, b: seq<State>)
    requires Turns(a, first) && Turns(b, Last(a)) && SameChains(first, Last(a)) && SameChains(Last(a), Last(b))
    ensures Turns(a + b[1..], first) && Last(a + b[1..]) == Last(b) && SameChains(first, Last(b))
  {
    hide Next;
    var all := a + b[1..];
    forall i | 0 <= i < |all| - 1
      ensures Next(all[i], all[i + 1])
    {
      if i >= |a| - 1 {
        assert all[i] == b[i - (|a| - 1)] && all[i + 1] == b[i - (|a| - 1) + 1];
      }
    }
  }

  lemma EnterIsTurn(s: State, t: Ticket)
    requires CanEnter(s, t)
    ensures Next(s, Enter(s, t)) && SameChains(s, Enter(s, t)) && TurnHasCome(Enter(s, t), t)
    ensures IsRunning(Enter(s, t), t)
  {
  }

  lemma LeaveIsTurn(s: State, t: Ticket)
    requires IsRunning(s, t) && TurnHasCome(s, t)
    ensures Next(s, Leave(s, t)) && SameChains(s, Leave(s, t)) && CanSettle(Leave(s, t), t)
  {
  }

  lemma SettleIsTurn(s: State, t: Ticket)
    requires CanSettle(s, t)
    ensures Next(s, Settle(s, t)) && SameChains(s, Settle(s, t)) && Settle(s, t).calls[t].settled
  {
  }

  /** A call whose turn has come can enter, leave and settle. */
  lemma FinishOne(s: State, t: Ticket) returns (turns: seq<State>)
    requires Inv(s) && t < |s.calls| && TurnHasCome(s, t)
    ensures Turns(turns, s) && Inv(Last(turns)) && SameChains(s, Last(turns)) && Last(turns).calls[t].settled
  {
    hide Inv, Next, Enter, Leave, Settle, TurnHasCome;
    turns := [s];
    if s.calls[t].phase == Waiting {
      turns := EnterNext(turns, s, t);
    }
    if Last(turns).calls[t].phase == Running {
      turns := LeaveNext(turns, s, t);
    }
    SettleIsTurn(Last(turns), t);
    OneMoreTurn(turns, s, Settle(Last(turns), t));
    turns := turns + [Settle(Last(turns), t)];
  }

  lemma EnterNext(turns: seq<State>, first: State, t: Ticket) returns (turns': seq<State>)
    requires Turns(turns, first) && Inv(Last(turns)) && SameChains(first, Last(turns)) && CanEnter(Last(turns), t)
    ensures Turns(turns', first) && Inv(Last(turns')) && SameChains(first, Last(turns'))
    ensures IsRunning(Last(turns'), t) && TurnHasCome(Last(turns'), t)
  {
    hide Inv, Next, Enter, TurnHasCome;
    EnterIsTurn(Last(turns), t);
    OneMoreTurn(turns, first, Enter(Last(turns), t));
    turns' := turns + [Enter(Last(turns), t)];
  }

  lemma LeaveNext(turns: seq<State>, first: State, t: Ticket) returns (turns': seq<State>)
    requires Turns(turns, first) && Inv(Last(turns)) && SameChains(first, Last(turns))
    requires IsRunning(Last(turns), t) && TurnHasCome(Last(turns), t)
    ensures Turns(turns', first) && Inv(Last(turns')) && SameChains(first, Last(turns')) && CanSettle(Last(turns'), t)
  {
    hide Inv, Next, Leave, TurnHasCome;
    LeaveIsTurn(Last(turns), t);
    OneMoreTurn(turns, first, Leave(Last(turns), t));
    turns' := turns + [Leave(Last(turns), t)];
  }

  /** From every state that keeps the invariant, turns lead to one in which the call is over. */
  lemma {:induction false} CanFinish(s: State, t: Ticket) returns (turns: seq<State>)
    requires Inv(s) && t < |s.calls|
    ensures Turns(turns, s) && Inv(Last(turns)) && SameChains(s, Last(turns)) && Last(turns).calls[t].settled
    decreases t
  {
    if TurnHasCome(s, t) {
      turns := FinishOne(s, t);
    } else {
      assert CallOk(s, t);
      hide Inv, Next;
      var before := CanFinish(s, s.calls[t].prev.value);
      var after := FinishOne(Last(before), t);
      MoreTurns(before, s, after);
      turns := before + after[1..];
    }
  }

  /** There is no deadlock: in every reachable state every call can still complete, whoever came before it. */
  lemma NoDeadlock(run: seq<State>, i: nat, t: Ticket) returns (turns: seq<State>)
    requires IsRun(run) && i < |run| && t < |run[i].calls|
    ensures Turns(turns, run[i]) && |Last(turns).calls| == |run[i].calls|
    ensures Last(turns).calls[t].phase == Done && Last(turns).calls[t].settled
  {
    hide Next;
    InvAlways(run, i);
    turns := CanFinish(run[i], t);
    assert CallOk(Last(turns), t);
  }

  // ---- the locker object

  class InProcessLocker {
    var tails: map<Key, Ticket>
    var calls: seq<Call>
    ghost var log: seq<Ticket>

    ghost function Snapshot(): State
      reads this
    {
      State(calls, tails, log)
    }

    ghost predicate Valid()
      reads this
    {
      Inv(Snapshot())
    }

    constructor ()
      ensures Valid() && Snapshot() == INITIAL
    {
      tails, calls, log := map[], [], [];
    }

    /** The first turn of withLock: link a new promise behind the tail. */
    method Link(key: Key) returns (mine: Ticket)
      requires Valid()
      modifies this
      ensures Valid() && Snapshot() == Arrive(old(Snapshot()), key) && mine == |old(calls)|
    {
      ArriveKeepsInv(Snapshot(), key);
      var prev := if key in tails then Some(tails[key]) else None;
      mine := |calls|;
      calls := calls + [Call(key, prev, Waiting, false)];
      tails := tails[key := mine];
    }

    /** The turn after the previous promise has settled: the critical section starts. */
    method Begin(mine: Ticket)
      requires Valid() && CanEnter(Snapshot(), mine)
      modifies this
      ensures Valid() && Snapshot() == Enter(old(Snapshot()), mine)
      ensures forall t: Ticket :: IsRunning(Snapshot(), t) && calls[t].key == calls[mine].key ==> t == mine
    {
      EnterKeepsInv(Snapshot(), mine);
      calls := calls[mine := calls[mine].(phase := Running)];
      forall t: Ticket | IsRunning(Snapshot(), t) && calls[t].key == calls[mine].key
        ensures t == mine
      {
        assert CallOk(Snapshot(), t) && CallOk(Snapshot(), mine);
      }
    }

    /** The last turn of withLock: open the gate, and clean up the tail if nobody queued behind. */
    method Release(mine: Ticket)
      requires Valid() && IsRunning(Snapshot(), mine)
      modifies this
      ensures Valid() && Snapshot() == Leave(old(Snapshot()), mine)
    {
      LeaveKeepsInv(Snapshot(), mine);
      var key := calls[mine].key;
      calls := calls[mine := calls[mine].(phase := Done)];
      if key in tails && tails[key] == mine {
        tails := tails - {key};
      }
    }
  }
}
