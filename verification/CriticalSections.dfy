/**
 Why a critical section may be taken as one step: sections that read a copy of what
 their key protects, and later write back what they made of the copy, come to the
 same as sections that run alone, one after the other in order of arrival.
 */
module CriticalSections {
  import opened Locker

  /** What a key protects, and the copies that calls have taken of it. */
  datatype Store<V> = Store(value: V, copies: map<Ticket, V>)

  ghost predicate IsOf(s: State, t: Ticket, key: Key) {
    t < |s.calls| && s.calls[t].key == key
  }

  // ---- the actions as they happen

  /**
   The store after the first `n` actions.  The first action of a call reads a copy, and
   every later one changes the copy and writes it back.
   */
  ghost function Replay<V>(s: State, key: Key, write: (Ticket, V) -> V, start: V, n: nat): Store<V>
    requires n <= |s.log|
  {
    if n == 0 then Store(start, map[]) else
      var before := Replay(s, key, write, start, n - 1);
      var t := s.log[n - 1];
      if !IsOf(s, t, key) then before
      else if t !in before.copies then before.(copies := before.copies[t := before.value])
      else Store(write(t, before.copies[t]), before.copies[t := write(t, before.copies[t])])
  }

  // ---- the calls one after the other

  /** How often call `t` acts among the first `n` actions. */
  ghost function Acts(s: State, t: Ticket, n: nat): nat
    requires n <= |s.log|
  {
    if n == 0 then 0 else Acts(s, t, n - 1) + if s.log[n - 1] == t then 1 else 0
  }

  /** How often it writes: every time it acts but the first. */
  ghost function Writes(s: State, t: Ticket, n: nat): nat
    requires n <= |s.log|
  {
    if Acts(s, t, n) == 0 then 0 else Acts(s, t, n) - 1
  }

  /** A call that runs alone, `k` writes of it. */
  ghost function Alone<V>(write: (Ticket, V) -> V, t: Ticket, k: nat, value: V): V {
    if k == 0 then value else write(t, Alone(write, t, k - 1, value))
  }

  /** What is left when the calls before ticket `t` have run alone, in order of arrival. */
  ghost function Serial<V>(s: State, key: Key, write: (Ticket, V) -> V, start: V, n: nat, t: Ticket): V
    requires n <= |s.log|
  {
    if t == 0 then start else
      var before := Serial(s, key, write, start, n, t - 1);
      if IsOf(s, t - 1, key) then Alone(write, t - 1, Writes(s, t - 1, n), before) else before
  }

  lemma {:induction false} SerialSame<V>(s: State, key: Key, write: (Ticket, V) -> V, start: V, n: nat, n': nat, t: Ticket)
    requires n <= |s.log| && n' <= |s.log|
    requires forall u: Ticket :: u < t && IsOf(s, u, key) ==> Writes(s, u, n) == Writes(s, u, n')
    ensures Serial(s, key, write, start, n, t) == Serial(s, key, write, start, n', t)
  {
    if t > 0 {
      hide Writes, Alone;
      SerialSame(s, key, write, start, n, n', t - 1);
    }
  }

  /** Calls that have not written change nothing. */
  lemma {:induction false} SerialIdle<V>(s: State, key: Key, write: (Ticket, V) -> V, start: V, n: nat, from: Ticket, t: Ticket)
    requires n <= |s.log| && from <= t
    requires forall u: Ticket :: from <= u < t && IsOf(s, u, key) ==> Writes(s, u, n) == 0
    ensures Serial(s, key, write, start, n, t) == Serial(s, key, write, start, n, from)
    decreases t
  {
    if from < t {
      hide Writes;
      SerialIdle(s, key, write, start, n, from, t - 1);
    }
  }

  // ---- the two agree

  /** Nobody after `t` has acted for the key yet. */
  ghost predicate IsLatest(s: State, key: Key, t: Ticket, n: nat)
    requires n <= |s.log|
  {
    forall u: Ticket :: t < u && IsOf(s, u, key) ==> Acts(s, u, n) == 0
  }

  /** Exactly the calls that have acted have a copy, and the latest copy is up to date. */
  ghost predicate CopiesOk<V>(s: State, key: Key, write: (Ticket, V) -> V, start: V, n: nat)
    requires n <= |s.log|
  {
    var store := Replay(s, key, write, start, n);
    && (forall t: Ticket :: IsOf(s, t, key) ==> (t in store.copies <==> Acts(s, t, n) > 0))
    && (forall t: Ticket :: IsOf(s, t, key) && Acts(s, t, n) > 0 && IsLatest(s, key, t, n) ==> store.copies[t] == store.value)
  }

  lemma {:induction false} ActsInLog(s: State, t: Ticket, n: nat) returns (i: nat)
    requires n <= |s.log| && Acts(s, t, n) > 0
    ensures i < n && s.log[i] == t
  {
    if s.log[n - 1] == t {
      return n - 1;
    }
    i := ActsInLog(s, t, n - 1);
  }

  /** Whoever acts next is the latest to act. */
  lemma NextIsLatest(s: State, key: Key, n: nat)
    requires LogOk(s) && n < |s.log| && IsOf(s, s.log[n], key)
    ensures IsLatest(s, key, s.log[n], n)
  {
    forall u: Ticket | s.log[n] < u && IsOf(s, u, key)
      ensures Acts(s, u, n) == 0
    {
      if Acts(s, u, n) > 0 {
        var i := ActsInLog(s, u, n);
      }
    }
  }

  /** What a write of the latest call does to the serial result. */
  lemma SerialWrite<V>(s: State, key: Key, write: (Ticket, V) -> V, start: V, n: nat, u: Ticket)
    requires n < |s.log| && s.log[n] == u && IsOf(s, u, key) && Acts(s, u, n) > 0 && IsLatest(s, key, u, n)
    ensures Serial(s, key, write, start, n + 1, |s.calls|) == write(u, Serial(s, key, write, start, n, |s.calls|))
  {
    SerialIdle(s, key, write, start, n, u + 1, |s.calls|);
    SerialIdle(s, key, write, start, n + 1, u + 1, |s.calls|);
    SerialSame(s, key, write, start, n, n + 1, u);
  }

  /** Other actions do not write. */
  lemma SerialOther<V>(s: State, key: Key, write: (Ticket, V) -> V, start: V, n: nat)
    requires n < |s.log| && (IsOf(s, s.log[n], key) ==> Acts(s, s.log[n], n) == 0)
    ensures Serial(s, key, write, start, n + 1, |s.calls|) == Serial(s, key, write, start, n, |s.calls|)
  {
    SerialSame(s, key, write, start, n, n + 1, |s.calls|);
  }

  /** One more action keeps the value in step with the serial result. */
  lemma ValueStep<V>(s: State, key: Key, write: (Ticket, V) -> V, start: V, n: nat)
    requires n < |s.log| && CopiesOk(s, key, write, start, n)
    requires IsOf(s, s.log[n], key) ==> IsLatest(s, key, s.log[n], n)
    requires Replay(s, key, write, start, n).value == Serial(s, key, write, start, n, |s.calls|)
    ensures Replay(s, key, write, start, n + 1).value == Serial(s, key, write, start, n + 1, |s.calls|)
  {
    hide Serial, Acts, IsLatest, IsOf;
    if IsOf(s, s.log[n], key) && Acts(s, s.log[n], n) > 0 {
      SerialWrite(s, key, write, start, n, s.log[n]);
    } else {
      SerialOther(s, key, write, start, n);
    }
  }

  lemma {:induction false} ReplayIsSerial<V>(s: State, key: Key, write: (Ticket, V) -> V, start: V, n: nat)
    requires LogOk(s) && n <= |s.log|
    ensures CopiesOk(s, key, write, start, n)
    ensures Replay(s, key, write, start, n).value == Serial(s, key, write, start, n, |s.calls|)
  {
    if n == 0 {
      SerialIdle(s, key, write, start, 0, 0, |s.calls|);
    } else {
      hide LogOk, Serial, Replay, Acts, CopiesOk, IsLatest, IsOf;
      ReplayIsSerial(s, key, write, start, n - 1);
      if IsOf(s, s.log[n - 1], key) {
        NextIsLatest(s, key, n - 1);
      }
      ValueStep(s, key, write, start, n - 1);
      CopiesStep(s, key, write, start, n - 1);
    }
  }

  lemma CopiesStep<V>(s: State, key: Key, write: (Ticket, V) -> V, start: V, n: nat)
    requires n < |s.log| && CopiesOk(s, key, write, start, n)
    requires IsOf(s, s.log[n], key) ==> IsLatest(s, key, s.log[n], n)
    ensures CopiesOk(s, key, write, start, n + 1)
  {
    forall t: Ticket | IsOf(s, t, key) && Acts(s, t, n + 1) > 0 && IsLatest(s, key, t, n + 1)
      ensures Replay(s, key, write, start, n + 1).copies[t] == Replay(s, key, write, start, n + 1).value
    {
      if IsOf(s, s.log[n], key) {
        assert Acts(s, s.log[n], n + 1) > 0;
        assert t == s.log[n];
      } else {
        assert IsLatest(s, key, t, n);
      }
    }
  }

  /**
   Critical sections are atomic: in every run, for every key and whatever its calls
   write, the store is as if each call had run alone, in order of arrival.
   */
  lemma SectionsAreAtomic<V>(run: seq<State>, i: nat, key: Key, write: (Ticket, V) -> V, start: V)
    requires IsRun(run) && i < |run|
    ensures Replay(run[i], key, write, start, |run[i].log|).value ==
            Serial(run[i], key, write, start, |run[i].log|, |run[i].calls|)
  {
    hide Next;
    InvAlways(run, i);
    ReplayIsSerial(run[i], key, write, start, |run[i].log|);
  }
}
