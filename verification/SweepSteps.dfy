/**
 Step by step: what a sweep job sends and when, where it goes next, when it is due
 again, and what its transactions and its amount are over every run.
 */
module SweepSteps {
  import opened Wrappers
  import opened Domain
  import opened Sweep

  // ---- what one step sends

  /** Gas: TRX for the deposit address. */
  ghost predicate IsGas(p: Policy, job: Job, tx: Tx) {
    tx.token == TokenTrx && tx.receiver == job.depositAddress && tx.amount == p.gasTopupSun
  }

  /** A transfer of USDT, signed for the deposit and sent to the collection address. */
  ghost predicate IsTransfer(job: Job, tx: Tx) {
    tx.token == TokenUsdt && tx.sender == Derived(job.depositIndex) && tx.receiver == job.collectionAddress
  }

  /** The deposit holds enough to be worth collecting. */
  ghost predicate Worthwhile(p: Policy, a: Answers) {
    a.balance.Some? && p.minSweepMicro <= a.balance.value
  }

  /**
   A step sends at most one transaction.  It is gas only if a deposit that is worth
   collecting has too little TRX; it is a transfer of what was observed if the deposit
   has enough, or of the job's amount once its gas is confirmed.
   */
  lemma StepSends(p: Policy, ledger: Ledger, job: Job, a: Answers, x: TxId)
    requires x !in ledger && x in StepLedger(p, ledger, job, a)
    ensures var after := StepLedger(p, ledger, job, a); var tx := after[x];
            && after == ledger[x := tx] && !tx.confirmed
            && match job.status
               case SweepPending =>
                 && Worthwhile(p, a) && a.trx.Some?
                 && if a.trx.value < p.gasMinSun then IsGas(p, job, tx) else IsTransfer(job, tx) && tx.amount == a.balance.value
               case GasFueling => job.gasTxId.Some? && a.confirmed == Some(true) && IsTransfer(job, tx) && tx.amount == job.amountMicro
               case _ => false
  {
  }

  // ---- where a job goes

  /** Jobs that are finished, and only those, are left alone whatever the treasury would answer. */
  lemma TerminalIsIdle(p: Policy, job: Job)
    ensures IsSweepTerminal(job.status) <==> forall a, now :: StepJob(p, job, a, now) == job
  {
    if !IsSweepTerminal(job.status) {
      var now := job.nextAttemptAt - 1 - p.backoffMs;
      assert StepJob(p, job, Throwing(), now) != job by {
        NotYetDue(p, job);
      }
    }
  }

  lemma NotYetDue(p: Policy, job: Job)
    requires !IsSweepTerminal(job.status)
    ensures StepJob(p, job, Throwing(), job.nextAttemptAt - 1 - p.backoffMs) != job
  {
  }

  /** The step returns instead of throwing. */
  ghost predicate Returns(p: Policy, job: Job, a: Answers) {
    match job.status
    case SweepPending =>
      a.balance.Some? &&
      (a.balance.value < p.minSweepMicro ||
       (a.trx.Some? && if a.trx.value < p.gasMinSun then a.fuel.Returned? else a.transfer.Returned?))
    case GasFueling => job.gasTxId.None? || a.confirmed == Some(false) || (a.confirmed == Some(true) && a.transfer.Returned?)
    case Sweeping => job.sweepTxId.None? || a.confirmed == Some(false) || (a.confirmed == Some(true) && a.audited)
    case _ => true
  }

  /**
   Where a step leads that returns: an unfunded deposit is EMPTY, a funded one without
   gas is fuelled, one with gas is swept, and it is SWEPT once its transfer is confirmed
   and audited; otherwise the job waits as it is.
   */
  lemma NextStatus(p: Policy, job: Job, a: Answers, now: Time)
    requires !IsSweepTerminal(job.status) && Returns(p, job, a)
    ensures StepJob(p, job, a, now).status ==
            match job.status
            case SweepPending =>
              if !Worthwhile(p, a) then Empty else if a.trx.value < p.gasMinSun then GasFueling else Sweeping
            case GasFueling => if job.gasTxId.Some? && a.confirmed == Some(true) then Sweeping else GasFueling
            case Sweeping => if job.sweepTxId.Some? && a.confirmed == Some(true) then Swept else Sweeping
  {
  }

  /** A step that throws costs one attempt and changes the status only to FAILED, when that was the last one. */
  lemma ThrowingCosts(p: Policy, job: Job, a: Answers, now: Time)
    requires !IsSweepTerminal(job.status) && !Returns(p, job, a)
    ensures var after := StepJob(p, job, a, now);
            && after.attempts == job.attempts + 1
            && after.status == (if p.maxAttempts <= job.attempts + 1 then SweepFailed else job.status)
            && after.gasTxId == job.gasTxId && after.sweepTxId == job.sweepTxId
  {
  }

  /** A step that returns forgets earlier errors when it moves on, and keeps count while it waits. */
  lemma ReturningForgets(p: Policy, job: Job, a: Answers, now: Time)
    requires !IsSweepTerminal(job.status) && Returns(p, job, a)
    ensures var after := StepJob(p, job, a, now);
            !IsSweepTerminal(after.status) ==> after.attempts == if after.status == job.status then job.attempts else 0
  {
  }

  /**
   A live job is due again after the backoff, and after as many backoffs as it has seen
   errors if the step threw; one that is finished bears the time of its last step.
   */
  lemma DueAgain(p: Policy, job: Job, a: Answers, now: Time)
    requires !IsSweepTerminal(job.status)
    ensures var after := StepJob(p, job, a, now);
            after.nextAttemptAt ==
            if IsSweepTerminal(after.status) then now
            else now + if Returns(p, job, a) then p.backoffMs else p.backoffMs * (job.attempts + 1)
  {
  }

  // ---- deposits, new jobs and requeued ones

  /** An order without a deposit takes the next index, and gets its address unless deriving that throws. */
  lemma DepositGiven(p: Policy, s: State, id: OrderId, derived: bool)
    requires DepositsOk(p, s)
    ensures var s' := Allocate(p, s, id, derived); var next := p.hdStartIndex + s'.counter;
            && s'.counter == (if id in s.deposits then s.counter else s.counter + 1)
            && s'.deposits == if id in s.deposits || !derived then s.deposits else s.deposits[id := Deposit(next, Derived(next), id)]
  {
    AllocationNeverCollides(p, s, id);
  }

  /** A new job is for its deposit's order and address, knows of no transaction, and is due at once. */
  lemma EnqueuedIsDue(p: Policy, s: State, id: OrderId, jobId: JobId, collection: Address)
    requires SweepOk(p, s) && id in s.deposits && id !in s.byOrderId
    ensures var s' := Enqueue(s, s.deposits[id], jobId, collection);
            && id in s'.byOrderId && s'.byOrderId[id] == jobId && jobId in s'.jobs && s'.jobs == s.jobs[jobId := s'.jobs[jobId]]
            && var job := s'.jobs[jobId];
               && job.orderId == id && job.depositAddress == s.deposits[id].address == Derived(job.depositIndex)
               && job.collectionAddress == collection && job.amountMicro == 0 && job.attempts == 0
               && job.status == SweepPending && job.gasTxId.None? && job.sweepTxId.None? && job.nextAttemptAt == job.createdAt == s.now
  {
    assert DepositOk(p, s, id);
  }

  /** An operator's retry makes a failed job due at once, with all its attempts; a job in any other state stays as it is. */
  lemma RequeuedIsDue(p: Policy, s: State, id: OrderId)
    requires SweepOk(p, s)
    ensures var s' := Retry(s, id);
            if id in s.byOrderId && s.jobs[s.byOrderId[id]].status == SweepFailed then
              var job := s.jobs[s.byOrderId[id]];
              s'.jobs == s.jobs[s.byOrderId[id] := job.(status := SweepPending, attempts := 0, nextAttemptAt := s.now)]
            else s'.jobs == s.jobs
  {
    if id in s.byOrderId {
      assert JobOk(s, s.byOrderId[id]);
    }
  }

  // ---- every run

  /** Whatever gas and transfers a job knows of are on the chain, and are its own. */
  ghost predicate Recorded(p: Policy, ledger: Ledger, job: Job) {
    && (job.gasTxId.Some? ==> job.gasTxId.value in ledger && IsGas(p, job, ledger[job.gasTxId.value]))
    && (job.sweepTxId.Some? ==> job.sweepTxId.value in ledger && IsTransfer(job, ledger[job.sweepTxId.value]))
    && (job.status == GasFueling ==> job.gasTxId.Some?)
    && (job.status == Sweeping || job.status == Swept ==> job.sweepTxId.Some?)
  }

  /** Only deposits that are worth it are collected, and only others are EMPTY. */
  ghost predicate Measured(p: Policy, job: Job) {
    && (job.status == GasFueling || job.status == Sweeping || job.status == Swept ==> p.minSweepMicro <= job.amountMicro)
    && (job.status == Empty ==> job.amountMicro < p.minSweepMicro)
  }

  ghost predicate AllRecorded(p: Policy, s: State) {
    forall jobId :: jobId in s.jobs ==> Recorded(p, s.ledger, s.jobs[jobId]) && Measured(p, s.jobs[jobId])
  }

  lemma ExtendsKeepsRecorded(p: Policy, before: Ledger, after: Ledger, job: Job)
    requires Extends(before, after) && Recorded(p, before, job)
    ensures Recorded(p, after, job)
  {
    if job.gasTxId.Some? {
      var x := job.gasTxId.value;
      assert after[x].(confirmed := before[x].confirmed) == before[x];
    }
    if job.sweepTxId.Some? {
      var x := job.sweepTxId.value;
      assert after[x].(confirmed := before[x].confirmed) == before[x];
    }
  }

  lemma StepKeepsRecorded(p: Policy, ledger: Ledger, job: Job, a: Answers, now: Time)
    requires Truthful(ledger, job, a) && Recorded(p, ledger, job) && Measured(p, job)
    ensures Recorded(p, StepLedger(p, ledger, job, a), StepJob(p, job, a, now))
    ensures Measured(p, StepJob(p, job, a, now))
  {
  }

  lemma ProcessKeepsRecorded(p: Policy, s: State, jobId: JobId, a: Answers)
    requires AllRecorded(p, s) && jobId in s.jobs && Truthful(s.ledger, s.jobs[jobId], a)
    ensures AllRecorded(p, Process(p, s, jobId, a))
  {
    hide StepJob, StepLedger, Recorded, Measured, Truthful, Extends;
    StepExtends(p, s.ledger, s.jobs[jobId], a);
    StepKeepsRecorded(p, s.ledger, s.jobs[jobId], a, s.now);
    var s' := Process(p, s, jobId, a);
    forall j | j in s'.jobs
      ensures Recorded(p, s'.ledger, s'.jobs[j]) && Measured(p, s'.jobs[j])
    {
      if j != jobId {
        ExtendsKeepsRecorded(p, s.ledger, s'.ledger, s.jobs[j]);
      }
    }
  }

  lemma LedgerGrows(p: Policy, s: State, s': State)
    requires AllRecorded(p, s) && s'.jobs == s.jobs && Extends(s.ledger, s'.ledger)
    ensures AllRecorded(p, s')
  {
    hide Recorded, Measured, Extends;
    forall j | j in s'.jobs
      ensures Recorded(p, s'.ledger, s'.jobs[j])
    {
      ExtendsKeepsRecorded(p, s.ledger, s'.ledger, s.jobs[j]);
    }
  }

  lemma RetryKeepsRecorded(p: Policy, s: State, id: OrderId)
    requires AllRecorded(p, s)
    ensures AllRecorded(p, Retry(s, id))
  {
    if CanRetry(s, id) {
      var jobId := s.byOrderId[id];
      assert Recorded(p, s.ledger, s.jobs[jobId]) && Measured(p, s.jobs[jobId]);
    }
  }

  lemma ApplyKeepsRecorded(p: Policy, s: State, e: Event)
    requires AllRecorded(p, s) && Enabled(s, e)
    ensures AllRecorded(p, Apply(p, s, e))
  {
    hide AllRecorded, Truthful, Process, Retry;
    match e
    case JobProcessed(jobId, a) => ProcessKeepsRecorded(p, s, jobId, a);
    case SweepRetried(id) => RetryKeepsRecorded(p, s, id);
    case SweepEnqueued(id, jobId, c) => EnqueueKeepsRecorded(p, s, s.deposits[id], jobId, c);
    case _ => LedgerGrows(p, s, Apply(p, s, e));
  }

  lemma EnqueueKeepsRecorded(p: Policy, s: State, d: Deposit, jobId: JobId, collection: Address)
    requires AllRecorded(p, s)
    ensures AllRecorded(p, Enqueue(s, d, jobId, collection))
  {
  }

  /**
   In every run the gas of a job that waits for it is TRX for the job's own deposit
   address, of the amount that the policy sets, and it is on the chain; only deposits
   worth collecting are fuelled or swept.
   */
  lemma {:induction false} AlwaysRecorded(p: Policy, events: seq<Event>, run: seq<State>, i: nat)
    requires IsRun(p, events, run) && i < |run|
    ensures AllRecorded(p, run[i])
  {
    if i > 0 {
      hide Enabled, Apply, AllRecorded;
      AlwaysRecorded(p, events, run, i - 1);
      ApplyKeepsRecorded(p, run[i - 1], events[i - 1]);
    }
  }

  ghost predicate IndexInRange(p: Policy, s: State, id: OrderId)
    requires id in s.deposits
  {
    p.hdStartIndex < s.deposits[id].index <= p.hdStartIndex + s.counter && s.deposits[id].address == Derived(s.deposits[id].index)
  }

  lemma StepKeepsIndex(p: Policy, s: State, e: Event, id: OrderId)
    requires id in Apply(p, s, e).deposits && (id in s.deposits ==> IndexInRange(p, s, id))
    ensures IndexInRange(p, Apply(p, s, e), id)
  {
    hide StepJob, StepLedger;
  }

  /** In every run each deposit address comes from an index of its own, above the first one and up to the counter. */
  lemma {:induction false} IndexesInRange(p: Policy, events: seq<Event>, run: seq<State>, i: nat, id: OrderId)
    requires IsRun(p, events, run) && i < |run| && id in run[i].deposits
    ensures IndexInRange(p, run[i], id)
  {
    if i > 0 {
      hide Apply, Enabled, IndexInRange;
      if id in run[i - 1].deposits {
        IndexesInRange(p, events, run, i - 1, id);
      }
      StepKeepsIndex(p, run[i - 1], events[i - 1], id);
    }
  }
}
