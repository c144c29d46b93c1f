/**
 The stores, the allocator and the service of the sweep pipeline, which change their
 records in place.  Each call takes exactly the steps of module Sweep.
 */
module SweepService {
  import opened Wrappers
  import opened Domain
  import opened Finite
  import opened Sweep

  // ---- stores

  class DepositAddressRepository {
    var counter: nat
    var byOrderId: map<OrderId, Deposit>
    var byAddress: map<Address, Deposit>

    constructor ()
      ensures counter == 0 && byOrderId == map[] && byAddress == map[]
    {
      counter, byOrderId, byAddress := 0, map[], map[];
    }

    method NextIndex() returns (raw: nat)
      modifies this`counter
      ensures counter == old(counter) + 1 && raw == counter
    {
      counter := counter + 1;
      return counter;
    }

    method Save(d: Deposit) returns (r: Result<Deposit>)
      modifies this`byOrderId, this`byAddress
      ensures r == if d.orderId in old(byOrderId) || d.address in old(byAddress) then Err(Duplicate) else Ok(d)
      ensures r.Err? ==> byOrderId == old(byOrderId) && byAddress == old(byAddress)
      ensures r.Ok? ==> byOrderId == old(byOrderId)[d.orderId := d] && byAddress == old(byAddress)[d.address := d]
    {
      if d.orderId in byOrderId || d.address in byAddress {
        return Err(Duplicate);
      }
      byOrderId := byOrderId[d.orderId := d];
      byAddress := byAddress[d.address := d];
      return Ok(d);
    }
  }

  class SweepJobRepository {
    var byId: map<JobId, Job>
    var byOrderId: map<OrderId, JobId>

    constructor ()
      ensures byId == map[] && byOrderId == map[]
    {
      byId, byOrderId := map[], map[];
    }

    method Create(job: Job) returns (r: Result<Job>)
      modifies this
      ensures r == if job.orderId in old(byOrderId) then Err(Duplicate) else Ok(job)
      ensures r.Err? ==> byId == old(byId) && byOrderId == old(byOrderId)
      ensures r.Ok? ==> byId == old(byId)[job.id := job] && byOrderId == old(byOrderId)[job.orderId := job.id]
    {
      if job.orderId in byOrderId {
        return Err(Duplicate);
      }
      byId := byId[job.id := job];
      byOrderId := byOrderId[job.orderId := job.id];
      return Ok(job);
    }

    method FindByOrderId(id: OrderId) returns (r: Option<Job>)
      ensures r == if id in byOrderId && byOrderId[id] in byId then Some(byId[byOrderId[id]]) else None
    {
      if id in byOrderId && byOrderId[id] in byId {
        return Some(byId[byOrderId[id]]);
      }
      return None;
    }

    method Update(job: Job) returns (r: Result<Job>)
      modifies this`byId
      ensures r == if job.id in old(byId) then Ok(job) else Err(NotFound)
      ensures byId == if job.id in old(byId) then old(byId)[job.id := job] else old(byId)
    {
      if job.id !in byId {
        return Err(NotFound);
      }
      byId := byId[job.id := job];
      return Ok(job);
    }

    /** The oldest jobs that are due, at most `limit` of them, oldest first. */
    method Due(now: Time, limit: nat) returns (due: seq<JobId>)
      ensures IsDueList(byId, now, limit, due)
    {
      var todo := set j | j in byId && IsDue(byId[j], now);
      due := [];
      ghost var all := todo;
      while todo != {} && |due| < limit
        invariant |due| <= limit && Distinct(due)
        invariant all == todo + Elements(due) && forall i :: 0 <= i < |due| ==> due[i] !in todo
        invariant Sorted(byId, due) && forall i, j :: 0 <= i < |due| && j in todo ==> NotLater(byId, due[i], j)
      {
        var first := Oldest(todo);
        assert forall i :: 0 <= i < |due| ==> NotLater(byId, due[i], first);
        due := due + [first];
        todo := todo - {first};
      }
      assert forall j :: j in all ==> j in todo || j in due;
    }

    method Oldest(ids: set<JobId>) returns (first: JobId)
      requires ids != {} && ids <= byId.Keys
      ensures first in ids && forall j :: j in ids ==> NotLater(byId, first, j)
    {
      first := Pick(ids);
      var todo := ids;
      while todo != {}
        invariant todo <= ids && first in ids
        invariant forall j :: j in ids && j !in todo ==> NotLater(byId, first, j)
      {
        var j := Pick(todo);
        if byId[j].createdAt < byId[first].createdAt {
          first := j;
        }
        todo := todo - {j};
      }
    }
  }

  predicate IsDue(job: Job, now: Time) {
    !IsSweepTerminal(job.status) && job.nextAttemptAt <= now
  }

  ghost predicate NotLater(jobs: map<JobId, Job>, a: JobId, b: JobId) {
    a in jobs && b in jobs && jobs[a].createdAt <= jobs[b].createdAt
  }

  ghost predicate Sorted(jobs: map<JobId, Job>, due: seq<JobId>) {
    forall i, j :: 0 <= i < j < |due| ==> NotLater(jobs, due[i], due[j])
  }

  /** Due jobs without repetition, oldest first; any that are missing are no older and had no room. */
  ghost predicate IsDueList(jobs: map<JobId, Job>, now: Time, limit: nat, due: seq<JobId>) {
    && Distinct(due) && |due| <= limit && Sorted(jobs, due)
    && (forall i :: 0 <= i < |due| ==> due[i] in jobs && IsDue(jobs[due[i]], now))
    && (forall j :: j in jobs && IsDue(jobs[j], now) && j !in due ==>
          |due| == limit && forall i :: 0 <= i < |due| ==> NotLater(jobs, due[i], j))
  }

  // ---- the treasury

  class Treasury {
    var ledger: Ledger

    constructor (ledger: Ledger)
      ensures this.ledger == ledger
    {
      this.ledger := ledger;
    }

    /** Sends a transaction, or throws before or after doing so. */
    method Send(tx: Tx, sent: Sent) returns (r: Result<TxId>)
      modifies this
      ensures ledger == Broadcast(old(ledger), sent, tx)
      ensures r == if sent.Returned? then Ok(sent.txId) else Err(ProviderFailure)
    {
      match sent
      case NotSent => r := Err(ProviderFailure);
      case SentThenThrew(x) =>
        ledger := ledger[x := tx];
        r := Err(ProviderFailure);
      case Returned(x) =>
        ledger := ledger[x := tx];
        r := Ok(x);
    }
  }

  // ---- the allocator

  class AddressAllocator {
    const deposits: DepositAddressRepository
    const policy: Policy
    ghost const jobs: SweepJobRepository
    ghost const treasury: Treasury

    constructor (policy: Policy, deposits: DepositAddressRepository, ghost jobs: SweepJobRepository, ghost treasury: Treasury)
      ensures this.policy == policy && this.deposits == deposits && this.jobs == jobs && this.treasury == treasury
    {
      this.policy, this.deposits, this.jobs, this.treasury := policy, deposits, jobs, treasury;
    }

    /** The order's deposit address; the first call for an order takes a new index. */
    method Allocate(id: OrderId, derived: bool, now: Time) returns (r: Result<Deposit>)
      modifies deposits
      ensures StateOf(deposits, jobs, treasury, now) == Sweep.Allocate(policy, old(StateOf(deposits, jobs, treasury, now)), id, derived)
      ensures r.Ok? <==> id in deposits.byOrderId
      ensures !derived && r.Err? ==> r.error == ProviderFailure
      ensures r.Ok? ==> r.value == deposits.byOrderId[id]
    {
      if id in deposits.byOrderId {
        return Ok(deposits.byOrderId[id]);
      }
      var raw := deposits.NextIndex();
      var index := policy.hdStartIndex + raw;
      if !derived {
        return Err(ProviderFailure);
      }
      r := deposits.Save(Deposit(index, Derived(index), id));
    }
  }

  /** What the stores hold, as a state of the protocol. */
  ghost function StateOf(deposits: DepositAddressRepository, jobs: SweepJobRepository, treasury: Treasury, now: Time): Sweep.State
    reads deposits, jobs, treasury
  {
    Sweep.State(deposits.counter, deposits.byOrderId, deposits.byAddress, jobs.byId, jobs.byOrderId, treasury.ledger, now)
  }

  /** Processes several jobs, one after the other. */
  function ProcessAll(p: Policy, s: Sweep.State, ids: seq<JobId>, answers: map<JobId, Answers>): Sweep.State {
    if ids == [] then s else
      var last := ids[|ids| - 1];
      var s' := ProcessAll(p, s, ids[..|ids| - 1], answers);
      if last in answers then Process(p, s', last, answers[last]) else s'
  }

  // ---- the service

  class SweepService {
    const policy: Policy
    const jobs: SweepJobRepository
    const treasury: Treasury
    ghost const deposits: DepositAddressRepository

    constructor (policy: Policy, jobs: SweepJobRepository, treasury: Treasury, ghost deposits: DepositAddressRepository)
      ensures this.policy == policy && this.jobs == jobs && this.treasury == treasury && this.deposits == deposits
    {
      this.policy, this.jobs, this.treasury, this.deposits := policy, jobs, treasury, deposits;
    }

    ghost function State(now: Time): Sweep.State
      reads deposits, jobs, treasury
    {
      StateOf(deposits, jobs, treasury, now)
    }

    /** Jobs are stored under their own ids, and the order index finds stored jobs. */
    ghost predicate Valid()
      reads jobs
    {
      && (forall j :: j in jobs.byId ==> jobs.byId[j].id == j)
      && (forall id :: id in jobs.byOrderId ==> jobs.byOrderId[id] in jobs.byId)
    }

    method Enqueue(d: Deposit, jobId: JobId, collection: Address, now: Time) returns (r: Result<Job>)
      requires Valid() && jobId !in jobs.byId
      modifies jobs
      ensures Valid()
      ensures State(now) == Sweep.Enqueue(old(State(now)), d, jobId, collection)
      ensures r == Ok(jobs.byId[jobs.byOrderId[d.orderId]])
    {
      var existing := jobs.FindByOrderId(d.orderId);
      if existing.Some? {
        return Ok(existing.value);
      }
      r := jobs.Create(Job(jobId, d.orderId, d.index, d.address, collection, 0, SweepPending, None, None, 0, now, now));
    }

    method Retry(id: OrderId, now: Time) returns (r: Option<Job>)
      requires Valid()
      modifies jobs
      ensures Valid()
      ensures State(now) == Sweep.Retry(old(State(now)), id)
      ensures r.Some? <==> CanRetry(old(State(now)), id)
      ensures r.Some? ==> id in jobs.byOrderId && jobs.byOrderId[id] in jobs.byId && r.value == jobs.byId[jobs.byOrderId[id]]
    {
      var found := jobs.FindByOrderId(id);
      if found.None? || found.value.status != SweepFailed {
        return None;
      }
      assert found.value.id == jobs.byOrderId[id];
      var job := found.value.(status := SweepPending, attempts := 0, nextAttemptAt := now);
      var updated := jobs.Update(job);
      return Some(job);
    }

    /** Advances every due job by one step; a job whose step throws is charged an attempt. */
    method ProcessDue(now: Time, limit: nat, answers: map<JobId, Answers>) returns (n: nat, ghost due: seq<JobId>)
      requires Valid() && jobs.byId.Keys <= answers.Keys
      modifies jobs, treasury
      ensures Valid()
      ensures State(now) == ProcessAll(policy, old(State(now)), due, answers)
      ensures IsDueList(old(jobs.byId), now, limit, due) && n == |due|
    {
      hide Sweep.Process, IsDueList;
      ghost var before := State(now);
      var list := jobs.Due(now, limit);
      due := list;
      DueListIsStored(jobs.byId, now, limit, list);
      for i := 0 to |list|
        invariant Valid() && State(now) == ProcessAll(policy, before, list[..i], answers)
        invariant jobs.byId.Keys == before.jobs.Keys
        invariant forall k :: i <= k < |list| ==> list[k] in jobs.byId && jobs.byId[list[k]] == before.jobs[list[k]]
      {
        assert list[..i + 1][..i] == list[..i];
        ProcessOne(jobs.byId[list[i]], answers[list[i]], now);
      }
      assert list[..|list|] == list;
      n := |list|;
    }

    /** One step of one job, with its error handler. */
    method ProcessOne(job: Job, a: Answers, now: Time)
      requires Valid() && job.id in jobs.byId && jobs.byId[job.id] == job
      modifies jobs, treasury
      ensures Valid() && State(now) == Process(policy, old(State(now)), job.id, a)
      ensures jobs.byId.Keys == old(jobs.byId.Keys)
      ensures forall j :: j in jobs.byId && j != job.id ==> jobs.byId[j] == old(jobs.byId[j])
    {
      var after, threw := Step(job, a, now);
      if threw {
        after := OnError(after, now);
      }
      var r := jobs.Update(after);
    }

    /** One step of a job; the record may have changed even if the step throws. */
    method Step(job: Job, a: Answers, now: Time) returns (after: Job, threw: bool)
      modifies treasury
      ensures after.id == job.id
      ensures (if threw then Sweep.OnError(policy, after, now) else after) == StepJob(policy, job, a, now)
      ensures treasury.ledger == StepLedger(policy, old(treasury.ledger), job, a)
    {
      match job.status
      case SweepPending => after, threw := StepPending(job, a, now);
      case GasFueling => after, threw := StepGasFueling(job, a, now);
      case Sweeping => after, threw := StepSweeping(job, a, now);
      case _ => after, threw := job, false;
    }

    method StepPending(job: Job, a: Answers, now: Time) returns (after: Job, threw: bool)
      requires job.status == SweepPending
      modifies treasury
      ensures after.id == job.id
      ensures (if threw then Sweep.OnError(policy, after, now) else after) == Sweep.StepPending(policy, job, a, now)
      ensures treasury.ledger == StepLedger(policy, old(treasury.ledger), job, a)
    {
      after, threw := job, true;
      if a.balance.None? {
        return;
      }
      var balance := a.balance.value;
      if balance < policy.minSweepMicro {
        after := Finish(after.(amountMicro := balance), Empty, now);
        return after, false;
      }
      after := after.(amountMicro := balance);
      if a.trx.None? {
        return;
      }
      if a.trx.value < policy.gasMinSun {
        var gas := treasury.Send(GasTx(policy, job, a), a.fuel);
        if gas.Ok? {
          after := Advance(after.(gasTxId := Some(gas.value)), GasFueling, now);
          threw := false;
        }
        return;
      }
      after, threw := Transfer(after, a.transfer, now);
    }

    method StepGasFueling(job: Job, a: Answers, now: Time) returns (after: Job, threw: bool)
      requires job.status == GasFueling
      modifies treasury
      ensures after.id == job.id
      ensures (if threw then Sweep.OnError(policy, after, now) else after) == Sweep.StepGasFueling(policy, job, a, now)
      ensures treasury.ledger == StepLedger(policy, old(treasury.ledger), job, a)
    {
      if job.gasTxId.None? {
        after := Defer(job, now);
        return after, false;
      }
      if a.confirmed.None? {
        return job, true;
      }
      if !a.confirmed.value {
        after := Defer(job, now);
        return after, false;
      }
      after, threw := Transfer(job, a.transfer, now);
    }

    method StepSweeping(job: Job, a: Answers, now: Time) returns (after: Job, threw: bool)
      requires job.status == Sweeping
      ensures after.id == job.id
      ensures (if threw then Sweep.OnError(policy, after, now) else after) == Sweep.StepSweeping(policy, job, a, now)
    {
      if job.sweepTxId.None? {
        after := Defer(job, now);
        return after, false;
      }
      if a.confirmed.None? {
        return job, true;
      }
      if !a.confirmed.value {
        after := Defer(job, now);
        return after, false;
      }
      if !a.audited {
        return job, true;
      }
      after := Finish(job, Swept, now);
      return after, false;
    }

    /** Asks for the transfer of the job's amount to its collection address. */
    method Transfer(job: Job, sent: Sent, now: Time) returns (after: Job, threw: bool)
      modifies treasury
      ensures after.id == job.id
      ensures (if threw then Sweep.OnError(policy, after, now) else after) == AfterTransfer(policy, job, sent, now)
      ensures treasury.ledger == Broadcast(old(treasury.ledger), sent, TransferTx(job, job.amountMicro))
    {
      var r := treasury.Send(TransferTx(job, job.amountMicro), sent);
      if r.Err? {
        return job, true;
      }
      after := Advance(job.(sweepTxId := Some(r.value)), Sweeping, now);
      return after, false;
    }

    method Advance(job: Job, status: SweepStatus, now: Time) returns (after: Job)
      ensures after == Sweep.Advance(policy, job, status, now)
    {
      after := job.(status := status);
      after := after.(attempts := 0);
      after := after.(nextAttemptAt := now + policy.backoffMs);
    }

    method Defer(job: Job, now: Time) returns (after: Job)
      ensures after == Sweep.Defer(policy, job, now)
    {
      after := job.(nextAttemptAt := now + policy.backoffMs);
    }

    method Finish(job: Job, status: SweepStatus, now: Time) returns (after: Job)
      ensures after == Sweep.Finish(job, status, now)
    {
      after := job.(status := status);
      after := after.(nextAttemptAt := now);
    }

    method OnError(job: Job, now: Time) returns (after: Job)
      ensures after == Sweep.OnError(policy, job, now)
    {
      after := job.(attempts := job.attempts + 1);
      if after.attempts >= policy.maxAttempts {
        after := after.(status := SweepFailed);
        after := after.(nextAttemptAt := now);
      } else {
        after := after.(nextAttemptAt := now + policy.backoffMs * after.attempts);
      }
    }
  }

  /** A list with room left has every job that is not finished and whose time has come. */
  lemma DueListIsComplete(jobs: map<JobId, Job>, now: Time, limit: nat, due: seq<JobId>, j: JobId)
    requires IsDueList(jobs, now, limit, due) && |due| < limit && j in jobs
    ensures j in due <==> jobs[j].status in {SweepPending, GasFueling, Sweeping} && jobs[j].nextAttemptAt <= now
  {
    if j in due {
      var i :| 0 <= i < |due| && due[i] == j;
    }
  }

  /** No job comes before an older one, and one that has to wait for want of room is older than none on the list. */
  lemma OldestAreFirst(jobs: map<JobId, Job>, now: Time, limit: nat, due: seq<JobId>)
    requires IsDueList(jobs, now, limit, due)
    ensures |due| <= limit && forall i :: 0 <= i < |due| ==> due[i] in jobs
    ensures forall i, j :: 0 <= i < j < |due| ==> due[i] != due[j] && jobs[due[i]].createdAt <= jobs[due[j]].createdAt
    ensures forall j :: j in jobs && IsDue(jobs[j], now) && j !in due ==>
              |due| == limit && forall i :: 0 <= i < |due| ==> jobs[due[i]].createdAt <= jobs[j].createdAt
  {
  }

  lemma DueListIsStored(jobs: map<JobId, Job>, now: Time, limit: nat, due: seq<JobId>)
    requires IsDueList(jobs, now, limit, due)
    ensures Distinct(due) && forall i :: 0 <= i < |due| ==> due[i] in jobs
  {
  }
}
