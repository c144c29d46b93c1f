/**
 Collection of per-order deposits into the central wallet: the sweep job state
 machine, the allocation of deposit addresses, and what both do to the chain.

 Calls to the treasury may throw at any point, a transfer may be broadcast although
 the call throws, and operators may requeue failed jobs at any time.
 */
module Sweep {
  import opened Wrappers
  import opened Domain
  import opened Finite

  type JobId = int

  datatype SweepStatus = SweepPending | GasFueling | Sweeping | Swept | Empty | SweepFailed

  predicate IsSweepTerminal(status: SweepStatus) {
    status == Swept || status == Empty || status == SweepFailed
  }

  datatype Policy = Policy(
    minSweepMicro: int,
    gasTopupSun: nat,
    gasMinSun: int,
    maxAttempts: nat,
    backoffMs: nat,
    hdStartIndex: nat)

  datatype Deposit = Deposit(index: nat, address: Address, orderId: OrderId)

  datatype Job = Job(
    id: JobId,
    orderId: OrderId,
    depositIndex: nat,
    depositAddress: Address,
    collectionAddress: Address,
    amountMicro: nat,
    status: SweepStatus,
    gasTxId: Option<TxId>,
    sweepTxId: Option<TxId>,
    attempts: nat,
    createdAt: Time,
    nextAttemptAt: Time)

  // ---- the chain

  datatype Token = TokenUsdt | TokenTrx

  datatype Tx = Tx(token: Token, sender: Address, receiver: Address, amount: nat, confirmed: bool)

  type Ledger = map<TxId, Tx>

  /** How a call that sends a transaction ends; it can throw before or after the broadcast. */
  datatype Sent = NotSent | SentThenThrew(txId: TxId) | Returned(txId: TxId)

  /** What the treasury and the audit log do during one step; a missing answer is a throw. */
  datatype Answers = Answers(
    balance: Option<nat>,
    trx: Option<nat>,
    feeWallet: Address,
    fuel: Sent,
    transfer: Sent,
    confirmed: Option<bool>,
    audited: bool)

  predicate Confirms(a: Answers) {
    a.confirmed.Some? && a.confirmed.value
  }

  predicate Denies(a: Answers) {
    a.confirmed.Some? && !a.confirmed.value
  }

  function Broadcast(ledger: Ledger, sent: Sent, tx: Tx): Ledger {
    if sent.NotSent? then ledger else ledger[sent.txId := tx]
  }

  // ---- one step of a job

  function Advance(p: Policy, job: Job, status: SweepStatus, now: Time): Job {
    job.(status := status, attempts := 0, nextAttemptAt := now + p.backoffMs)
  }

  function Defer(p: Policy, job: Job, now: Time): Job {
    job.(nextAttemptAt := now + p.backoffMs)
  }

  function Finish(job: Job, status: SweepStatus, now: Time): Job {
    job.(status := status, nextAttemptAt := now)
  }

  function OnError(p: Policy, job: Job, now: Time): Job {
    var n := job.attempts + 1;
    if n >= p.maxAttempts then job.(attempts := n, status := SweepFailed, nextAttemptAt := now)
    else job.(attempts := n, nextAttemptAt := now + p.backoffMs * n)
  }

  /** The job after it asked for a transfer of its amount. */
  function AfterTransfer(p: Policy, job: Job, sent: Sent, now: Time): Job {
    if sent.Returned? then Advance(p, job.(sweepTxId := Some(sent.txId)), Sweeping, now)
    else OnError(p, job, now)
  }

  /** Inspects the deposit, then fuels gas or transfers; the observed amount stays even if a call throws. */
  function StepPending(p: Policy, job: Job, a: Answers, now: Time): Job {
    if a.balance.None? then OnError(p, job, now)
    else
      var funded := job.(amountMicro := a.balance.value);
      if a.balance.value < p.minSweepMicro then Finish(funded, Empty, now)
      else if a.trx.None? then OnError(p, funded, now)
      else if a.trx.value >= p.gasMinSun then AfterTransfer(p, funded, a.transfer, now)
      else if a.fuel.Returned? then Advance(p, funded.(gasTxId := Some(a.fuel.txId)), GasFueling, now)
      else OnError(p, funded, now)
  }

  function StepGasFueling(p: Policy, job: Job, a: Answers, now: Time): Job {
    if job.gasTxId.None? || Denies(a) then Defer(p, job, now)
    else if a.confirmed.None? then OnError(p, job, now)
    else AfterTransfer(p, job, a.transfer, now)
  }

  function StepSweeping(p: Policy, job: Job, a: Answers, now: Time): Job {
    if job.sweepTxId.None? || Denies(a) then Defer(p, job, now)
    else if a.confirmed.None? || !a.audited then OnError(p, job, now)
    else Finish(job, Swept, now)
  }

  function StepJob(p: Policy, job: Job, a: Answers, now: Time): Job {
    match job.status
    case SweepPending => StepPending(p, job, a, now)
    case GasFueling => StepGasFueling(p, job, a, now)
    case Sweeping => StepSweeping(p, job, a, now)
    case _ => job
  }

  /** The step calls the treasury for gas. */
  predicate CallsFuel(p: Policy, job: Job, a: Answers) {
    && job.status == SweepPending && a.balance.Some? && a.balance.value >= p.minSweepMicro
    && a.trx.Some? && a.trx.value < p.gasMinSun
  }

  /** The step calls the treasury for a transfer. */
  predicate CallsTransfer(p: Policy, job: Job, a: Answers) {
    match job.status
    case SweepPending =>
      a.balance.Some? && a.balance.value >= p.minSweepMicro && a.trx.Some? && a.trx.value >= p.gasMinSun
    case GasFueling => job.gasTxId.Some? && Confirms(a)
    case _ => false
  }

  /** The transfer a step asks for; it is signed with the key of the deposit index. */
  function TransferTx(job: Job, amount: nat): Tx {
    Tx(TokenUsdt, Derived(job.depositIndex), job.collectionAddress, amount, false)
  }

  function GasTx(p: Policy, job: Job, a: Answers): Tx {
    Tx(TokenTrx, a.feeWallet, job.depositAddress, p.gasTopupSun, false)
  }

  function StepLedger(p: Policy, ledger: Ledger, job: Job, a: Answers): Ledger {
    if CallsFuel(p, job, a) then Broadcast(ledger, a.fuel, GasTx(p, job, a))
    else if CallsTransfer(p, job, a) then
      Broadcast(ledger, a.transfer,
                TransferTx(job, if job.status == SweepPending then a.balance.value else job.amountMicro))
    else ledger
  }

  // ---- the store

  datatype State = State(
    counter: nat,
    deposits: map<OrderId, Deposit>,
    byAddress: map<Address, Deposit>,
    jobs: map<JobId, Job>,
    byOrderId: map<OrderId, JobId>,
    ledger: Ledger,
    now: Time)

  function Initial(ledger: Ledger, now: Time): State {
    State(0, map[], map[], map[], map[], ledger, now)
  }

  /** Gives an order a deposit address; deriving it may throw, which burns the index. */
  function Allocate(p: Policy, s: State, id: OrderId, derived: bool): State {
    if id in s.deposits then s else
      var index := p.hdStartIndex + s.counter + 1;
      var d := Deposit(index, Derived(index), id);
      var s' := s.(counter := s.counter + 1);
      if !derived || d.address in s.byAddress then s'
      else s'.(deposits := s.deposits[id := d], byAddress := s.byAddress[d.address := d])
  }

  function NewJob(d: Deposit, jobId: JobId, collection: Address, now: Time): Job {
    Job(jobId, d.orderId, d.index, d.address, collection, 0, SweepPending, None, None, 0, now, now)
  }

  /** Queues the deposit of an order, once. */
  function Enqueue(s: State, d: Deposit, jobId: JobId, collection: Address): State {
    if d.orderId in s.byOrderId then s else
      s.(jobs := s.jobs[jobId := NewJob(d, jobId, collection, s.now)],
         byOrderId := s.byOrderId[d.orderId := jobId])
  }

  predicate CanRetry(s: State, id: OrderId) {
    id in s.byOrderId && s.byOrderId[id] in s.jobs && s.jobs[s.byOrderId[id]].status == SweepFailed
  }

  /** Requeues a failed job; it keeps the ids of its earlier transactions. */
  function Retry(s: State, id: OrderId): State {
    if !CanRetry(s, id) then s else
      var job := s.jobs[s.byOrderId[id]];
      s.(jobs := s.jobs[job.id := job.(status := SweepPending, attempts := 0, nextAttemptAt := s.now)])
  }

  function Process(p: Policy, s: State, jobId: JobId, a: Answers): State {
    if jobId !in s.jobs then s else
      s.(jobs := s.jobs[jobId := StepJob(p, s.jobs[jobId], a, s.now)],
         ledger := StepLedger(p, s.ledger, s.jobs[jobId], a))
  }

  // ---- runs

  datatype Event =
    | Tick(to: Time)
    | DepositAllocated(id: OrderId, derived: bool)
    | SweepEnqueued(id: OrderId, jobId: JobId, collection: Address)
    | SweepRetried(id: OrderId)
    | JobProcessed(jobId: JobId, a: Answers)
    | OtherTx(txId: TxId, tx: Tx)
    | TxConfirmed(txId: TxId)

  ghost predicate IsFresh(ledger: Ledger, sent: Sent) {
    sent.NotSent? || sent.txId !in ledger
  }

  /** New transactions have new ids, and a sweep reported as confirmed is confirmed. */
  ghost predicate Truthful(ledger: Ledger, job: Job, a: Answers) {
    && IsFresh(ledger, a.fuel) && IsFresh(ledger, a.transfer)
    && (job.status == Sweeping && job.sweepTxId.Some? && Confirms(a) ==>
          job.sweepTxId.value in ledger && ledger[job.sweepTxId.value].confirmed)
  }

  ghost predicate Enabled(s: State, e: Event) {
    match e
    case Tick(to) => to >= s.now
    case SweepEnqueued(id, jobId, _) => id in s.deposits && jobId !in s.jobs
    case JobProcessed(jobId, a) => jobId in s.jobs && Truthful(s.ledger, s.jobs[jobId], a)
    case OtherTx(txId, _) => txId !in s.ledger
    case TxConfirmed(txId) => txId in s.ledger
    case _ => true
  }

  function Apply(p: Policy, s: State, e: Event): State {
    match e
    case Tick(to) => s.(now := to)
    case DepositAllocated(id, derived) => Allocate(p, s, id, derived)
    case SweepEnqueued(id, jobId, c) => if id in s.deposits then Enqueue(s, s.deposits[id], jobId, c) else s
    case SweepRetried(id) => Retry(s, id)
    case JobProcessed(jobId, a) => Process(p, s, jobId, a)
    case OtherTx(txId, tx) => s.(ledger := s.ledger[txId := tx])
    case TxConfirmed(txId) =>
      if txId in s.ledger then s.(ledger := s.ledger[txId := s.ledger[txId].(confirmed := true)]) else s
  }

  ghost predicate IsRun(p: Policy, events: seq<Event>, run: seq<State>) {
    && |run| == |events| + 1 && run[0] == Initial(run[0].ledger, run[0].now)
    && forall i :: 0 <= i < |events| ==> Enabled(run[i], events[i]) && run[i + 1] == Apply(p, run[i], events[i])
  }

  // ---- deposit addresses

  ghost predicate DepositOk(p: Policy, s: State, id: OrderId)
    requires id in s.deposits
  {
    var d := s.deposits[id];
    d.orderId == id && d.address == Derived(d.index) && d.index <= p.hdStartIndex + s.counter &&
    d.address in s.byAddress && s.byAddress[d.address] == d
  }

  ghost predicate AddressOk(s: State, x: Address)
    requires x in s.byAddress
  {
    var d := s.byAddress[x];
    d.address == x && d.orderId in s.deposits && s.deposits[d.orderId] == d
  }

  /** Both indexes of the deposits agree. */
  ghost predicate DepositsOk(p: Policy, s: State) {
    && (forall id :: id in s.deposits ==> DepositOk(p, s, id))
    && (forall x :: x in s.byAddress ==> AddressOk(s, x))
  }

  /** A freshly derived address is never taken, so saving it never fails. */
  lemma AllocationNeverCollides(p: Policy, s: State, id: OrderId)
    requires DepositsOk(p, s)
    ensures Derived(p.hdStartIndex + s.counter + 1) !in s.byAddress
    ensures id in Allocate(p, s, id, true).deposits
    ensures DepositsOk(p, Allocate(p, s, id, true)) && DepositsOk(p, Allocate(p, s, id, false))
  {
    var x := Derived(p.hdStartIndex + s.counter + 1);
    forall y | y in s.byAddress
      ensures y != x
    {
      assert AddressOk(s, y) && DepositOk(p, s, s.byAddress[y].orderId);
    }
    AllocateKeeps(p, s, id, true);
    AllocateKeeps(p, s, id, false);
  }

  lemma AllocateKeeps(p: Policy, s: State, id: OrderId, derived: bool)
    requires DepositsOk(p, s)
    ensures DepositsOk(p, Allocate(p, s, id, derived))
    ensures forall x :: x in s.deposits ==>
              x in Allocate(p, s, id, derived).deposits && Allocate(p, s, id, derived).deposits[x] == s.deposits[x]
  {
    var s' := Allocate(p, s, id, derived);
    forall x | x in s'.deposits
      ensures DepositOk(p, s', x)
    {
      assert x in s.deposits ==> DepositOk(p, s, x);
    }
    forall x | x in s'.byAddress
      ensures AddressOk(s', x)
    {
      assert x in s.byAddress ==> AddressOk(s, x);
    }
  }

  // ---- the invariant of jobs

  /** The transaction moves exactly the job's amount from its deposit address to its collection address. */
  ghost predicate Collects(ledger: Ledger, job: Job, txId: TxId) {
    txId in ledger && ledger[txId].token == TokenUsdt && ledger[txId].sender == job.depositAddress &&
    ledger[txId].receiver == job.collectionAddress && ledger[txId].amount == job.amountMicro
  }

  ghost predicate Backed(ledger: Ledger, job: Job) {
    && (job.status == Sweeping || job.status == Swept ==> job.sweepTxId.Some? && Collects(ledger, job, job.sweepTxId.value))
    && (job.status == Swept ==> ledger[job.sweepTxId.value].confirmed)
  }

  ghost predicate Patient(p: Policy, job: Job) {
    IsSweepTerminal(job.status) || job.attempts < p.maxAttempts
  }

  /** The job belongs to the deposit of its order, and is the only one that does. */
  ghost predicate Belongs(s: State, job: Job) {
    && job.orderId in s.byOrderId && s.byOrderId[job.orderId] == job.id && job.orderId in s.deposits
    && job.depositAddress == s.deposits[job.orderId].address && job.depositAddress == Derived(job.depositIndex)
  }

  ghost predicate JobOk(s: State, jobId: JobId)
    requires jobId in s.jobs
  {
    s.jobs[jobId].id == jobId && Belongs(s, s.jobs[jobId]) && Backed(s.ledger, s.jobs[jobId])
  }

  ghost predicate JobsOk(s: State) {
    && (forall jobId :: jobId in s.jobs ==> JobOk(s, jobId))
    && (forall id :: id in s.byOrderId ==> s.byOrderId[id] in s.jobs && s.jobs[s.byOrderId[id]].orderId == id)
  }

  ghost predicate SweepOk(p: Policy, s: State) {
    DepositsOk(p, s) && JobsOk(s)
  }

  /** Transactions stay on the chain as they are, and stay confirmed. */
  ghost predicate Extends(before: Ledger, after: Ledger) {
    forall x :: x in before ==>
      x in after && after[x].(confirmed := before[x].confirmed) == before[x] && (before[x].confirmed ==> after[x].confirmed)
  }

  lemma ExtendsKeepsBacked(before: Ledger, after: Ledger, job: Job)
    requires Extends(before, after) && Backed(before, job)
    ensures Backed(after, job)
  {
    if job.status == Sweeping || job.status == Swept {
      var x := job.sweepTxId.value;
      assert after[x].(confirmed := before[x].confirmed) == before[x];
    }
  }

  lemma StepExtends(p: Policy, ledger: Ledger, job: Job, a: Answers)
    requires Truthful(ledger, job, a)
    ensures Extends(ledger, StepLedger(p, ledger, job, a))
  {
  }

  /** One step of a job keeps it backed by the chain and never changes whose job it is. */
  lemma StepKeepsBacked(p: Policy, ledger: Ledger, job: Job, a: Answers, now: Time)
    requires Truthful(ledger, job, a) && Backed(ledger, job) && job.depositAddress == Derived(job.depositIndex)
    ensures Backed(StepLedger(p, ledger, job, a), StepJob(p, job, a, now))
  {
    var after := StepJob(p, job, a, now);
    if CallsTransfer(p, job, a) && a.transfer.Returned? {
      assert StepLedger(p, ledger, job, a) == ledger[a.transfer.txId := TransferTx(job, after.amountMicro)];
      assert after.sweepTxId == Some(a.transfer.txId);
    } else if job.status == Sweeping {
      assert StepLedger(p, ledger, job, a) == ledger;
    } else {
      assert after.status == Sweeping || after.status == Swept ==> after == job;
    }
  }

  predicate SameOwner(job: Job, job': Job) {
    job'.id == job.id && job'.orderId == job.orderId && job'.depositIndex == job.depositIndex &&
    job'.depositAddress == job.depositAddress && job'.collectionAddress == job.collectionAddress
  }

  lemma StepKeepsOwner(p: Policy, job: Job, a: Answers, now: Time)
    ensures SameOwner(job, StepJob(p, job, a, now))
  {
  }

  /** One job changes and the chain grows. */
  lemma JobChangeKeepsOk(p: Policy, s: State, s': State, job: Job)
    requires SweepOk(p, s) && job.id in s.jobs && SameOwner(s.jobs[job.id], job)
    requires s' == s.(jobs := s.jobs[job.id := job], ledger := s'.ledger)
    requires Extends(s.ledger, s'.ledger) && Backed(s'.ledger, job)
    ensures SweepOk(p, s')
  {
    hide Backed, Extends;
    forall x | x in s'.jobs
      ensures JobOk(s', x)
    {
      assert JobOk(s, x);
      if x != job.id {
        ExtendsKeepsBacked(s.ledger, s'.ledger, s.jobs[x]);
      }
    }
    assert DepositsOk(p, s') by {
      forall id | id in s'.deposits ensures DepositOk(p, s', id) { assert DepositOk(p, s, id); }
      forall x | x in s'.byAddress ensures AddressOk(s', x) { assert AddressOk(s, x); }
    }
  }

  lemma LedgerChangeKeepsOk(p: Policy, s: State, s': State)
    requires SweepOk(p, s) && s' == s.(ledger := s'.ledger, now := s'.now) && Extends(s.ledger, s'.ledger)
    ensures SweepOk(p, s')
  {
    hide Backed, Extends;
    forall x | x in s'.jobs
      ensures JobOk(s', x)
    {
      assert JobOk(s, x);
      ExtendsKeepsBacked(s.ledger, s'.ledger, s.jobs[x]);
    }
    assert DepositsOk(p, s') by {
      forall id | id in s'.deposits ensures DepositOk(p, s', id) { assert DepositOk(p, s, id); }
      forall x | x in s'.byAddress ensures AddressOk(s', x) { assert AddressOk(s, x); }
    }
  }

  lemma EnqueueKeepsOk(p: Policy, s: State, id: OrderId, jobId: JobId, collection: Address)
    requires SweepOk(p, s) && id in s.deposits && jobId !in s.jobs
    ensures SweepOk(p, Enqueue(s, s.deposits[id], jobId, collection))
  {
    hide Collects;
    var s' := Enqueue(s, s.deposits[id], jobId, collection);
    assert DepositOk(p, s, id);
    forall x | x in s'.jobs
      ensures JobOk(s', x)
    {
      assert x in s.jobs ==> JobOk(s, x);
    }
    assert DepositsOk(p, s') by {
      forall x | x in s'.deposits ensures DepositOk(p, s', x) { assert DepositOk(p, s, x); }
      forall x | x in s'.byAddress ensures AddressOk(s', x) { assert AddressOk(s, x); }
    }
  }

  lemma AllocateKeepsOk(p: Policy, s: State, id: OrderId, derived: bool)
    requires SweepOk(p, s)
    ensures SweepOk(p, Allocate(p, s, id, derived))
  {
    hide Backed, DepositsOk;
    AllocateKeeps(p, s, id, derived);
    var s' := Allocate(p, s, id, derived);
    forall x | x in s'.jobs
      ensures JobOk(s', x)
    {
      assert JobOk(s, x);
    }
  }

  lemma RetryKeepsOk(p: Policy, s: State, id: OrderId)
    requires SweepOk(p, s)
    ensures SweepOk(p, Retry(s, id))
  {
    if CanRetry(s, id) {
      var job := s.jobs[s.byOrderId[id]];
      assert JobOk(s, s.byOrderId[id]);
      JobChangeKeepsOk(p, s, Retry(s, id), job.(status := SweepPending, attempts := 0, nextAttemptAt := s.now));
    }
  }

  lemma ProcessKeepsOk(p: Policy, s: State, jobId: JobId, a: Answers)
    requires SweepOk(p, s) && jobId in s.jobs && Truthful(s.ledger, s.jobs[jobId], a)
    ensures SweepOk(p, Process(p, s, jobId, a))
  {
    hide StepJob, StepLedger, Backed, Truthful, Extends, DepositsOk;
    assert JobOk(s, jobId);
    var job := s.jobs[jobId];
    StepExtends(p, s.ledger, job, a);
    StepKeepsBacked(p, s.ledger, job, a, s.now);
    StepKeepsOwner(p, job, a, s.now);
    JobChangeKeepsOk(p, s, Process(p, s, jobId, a), StepJob(p, job, a, s.now));
  }

  lemma ApplyKeepsOk(p: Policy, s: State, e: Event)
    requires SweepOk(p, s) && Enabled(s, e)
    ensures SweepOk(p, Apply(p, s, e))
  {
    hide SweepOk, Truthful, Process, Enqueue, Allocate, Retry;
    match e
    case Tick(to) => LedgerChangeKeepsOk(p, s, Apply(p, s, e));
    case DepositAllocated(id, derived) => AllocateKeepsOk(p, s, id, derived);
    case SweepEnqueued(id, jobId, c) => EnqueueKeepsOk(p, s, id, jobId, c);
    case SweepRetried(id) => RetryKeepsOk(p, s, id);
    case JobProcessed(jobId, a) => ProcessKeepsOk(p, s, jobId, a);
    case OtherTx(txId, tx) => LedgerChangeKeepsOk(p, s, Apply(p, s, e));
    case TxConfirmed(txId) => LedgerChangeKeepsOk(p, s, Apply(p, s, e));
  }

  lemma {:induction false} AlwaysSweepOk(p: Policy, events: seq<Event>, run: seq<State>, i: nat)
    requires IsRun(p, events, run) && i < |run|
    ensures SweepOk(p, run[i])
  {
    hide Enabled, Apply;
    if i > 0 {
      hide SweepOk;
      AlwaysSweepOk(p, events, run, i - 1);
      ApplyKeepsOk(p, run[i - 1], events[i - 1]);
    }
  }

  // ---- what is promised about jobs

  /**
   A swept job's transaction is a confirmed transfer of exactly its amount from its
   own deposit address to its collection address.
   */
  lemma SweptIsConfirmed(p: Policy, events: seq<Event>, run: seq<State>, i: nat, jobId: JobId)
    requires IsRun(p, events, run) && i < |run| && jobId in run[i].jobs && run[i].jobs[jobId].status == Swept
    ensures var s := run[i]; var job := s.jobs[jobId];
            && job.sweepTxId.Some? && job.sweepTxId.value in s.ledger
            && s.ledger[job.sweepTxId.value] == Tx(TokenUsdt, job.depositAddress, job.collectionAddress, job.amountMicro, true)
            && job.orderId in s.deposits && job.depositAddress == s.deposits[job.orderId].address
  {
    hide IsRun;
    AlwaysSweepOk(p, events, run, i);
    assert JobOk(run[i], jobId);
  }

  lemma OwnDeposits(p: Policy, s: State, a: JobId, b: JobId)
    requires SweepOk(p, s) && a in s.jobs && b in s.jobs && s.jobs[a].depositAddress == s.jobs[b].depositAddress
    ensures a == b
  {
    hide Backed;
    assert JobOk(s, a) && JobOk(s, b);
    assert DepositOk(p, s, s.jobs[a].orderId) && DepositOk(p, s, s.jobs[b].orderId);
  }

  /** No two jobs share a deposit address. */
  lemma DepositsDiffer(p: Policy, events: seq<Event>, run: seq<State>, i: nat, a: JobId, b: JobId)
    requires IsRun(p, events, run) && i < |run| && a in run[i].jobs && b in run[i].jobs && a != b
    ensures run[i].jobs[a].depositAddress != run[i].jobs[b].depositAddress
  {
    hide IsRun, SweepOk;
    AlwaysSweepOk(p, events, run, i);
    if run[i].jobs[a].depositAddress == run[i].jobs[b].depositAddress {
      OwnDeposits(p, run[i], a, b);
    }
  }

  // ---- accounting

  /** What a swept job says it brought to collection address `c`. */
  ghost function Collected(s: State, c: Address): JobId -> int {
    j => if j in s.jobs && s.jobs[j].status == Swept && s.jobs[j].collectionAddress == c then s.jobs[j].amountMicro else 0
  }

  /** What a confirmed transfer brought to address `c`. */
  ghost function Arrived(s: State, c: Address): TxId -> int {
    x => if x in s.ledger && s.ledger[x].token == TokenUsdt && s.ledger[x].receiver == c && s.ledger[x].confirmed
         then s.ledger[x].amount else 0
  }

  ghost function SweptTo(s: State, c: Address): set<JobId> {
    set j | j in s.jobs && s.jobs[j].status == Swept && s.jobs[j].collectionAddress == c
  }

  ghost function SweepTx(s: State): JobId -> TxId {
    j => if j in s.jobs && s.jobs[j].sweepTxId.Some? then s.jobs[j].sweepTxId.value else 0
  }

  lemma OnlySweptCount(s: State, c: Address)
    ensures Sum(s.jobs.Keys, Collected(s, c)) == Sum(SweptTo(s, c), Collected(s, c))
  {
    var f := Collected(s, c);
    SumRest(s.jobs.Keys, SweptTo(s, c), f);
  }

  lemma SweptArePaired(p: Policy, s: State, c: Address)
    requires SweepOk(p, s)
    ensures Paired(SweptTo(s, c), Collected(s, c), s.ledger.Keys, Arrived(s, c), SweepTx(s))
  {
    hide DepositsOk, Belongs;
    var f, g, h := Collected(s, c), Arrived(s, c), SweepTx(s);
    forall x | x in s.ledger.Keys
      ensures g(x) >= 0
    {
    }
    forall j | j in SweptTo(s, c)
      ensures h(j) in s.ledger.Keys && f(j) == g(h(j))
    {
      assert JobOk(s, j);
    }
    forall j, k | j in SweptTo(s, c) && k in SweptTo(s, c) && h(j) == h(k)
      ensures j == k
    {
      assert JobOk(s, j) && JobOk(s, k);
      OwnDeposits(p, s, j, k);
    }
  }

  lemma CollectedIsArrived(p: Policy, s: State, c: Address)
    requires SweepOk(p, s)
    ensures Sum(s.jobs.Keys, Collected(s, c)) <= Sum(s.ledger.Keys, Arrived(s, c))
  {
    SweptArePaired(p, s, c);
    hide SweepOk, Paired;
    OnlySweptCount(s, c);
    SumPaired(SweptTo(s, c), Collected(s, c), s.ledger.Keys, Arrived(s, c), SweepTx(s));
  }

  /** What the swept jobs of a collection address add up to never exceeds what arrived there. */
  lemma SweptNeverExceedsArrived(p: Policy, events: seq<Event>, run: seq<State>, i: nat, c: Address)
    requires IsRun(p, events, run) && i < |run|
    ensures Sum(run[i].jobs.Keys, Collected(run[i], c)) <= Sum(run[i].ledger.Keys, Arrived(run[i], c))
  {
    hide *;
    AlwaysSweepOk(p, events, run, i);
    CollectedIsArrived(p, run[i], c);
  }

  // ---- progress

  function Rank(status: SweepStatus): nat {
    match status
    case SweepPending => 2
    case GasFueling => 1
    case _ => 0
  }

  /** How many more steps that are not waits a job can take. */
  function StepsLeft(p: Policy, job: Job): int {
    if IsSweepTerminal(job.status) then 0 else Rank(job.status) * p.maxAttempts + (p.maxAttempts - job.attempts)
  }

  /** The step only waits for a confirmation. */
  predicate Waits(job: Job, a: Answers) {
    match job.status
    case GasFueling => job.gasTxId.None? || Denies(a)
    case Sweeping => job.sweepTxId.None? || Denies(a)
    case _ => false
  }

  /** A step of a live job that is not a wait. */
  predicate Works(job: Job, a: Answers) {
    !IsSweepTerminal(job.status) && !Waits(job, a)
  }

  /** Every working step uses up at least one of the steps left, and waiting uses none. */
  lemma StepUsesUp(p: Policy, job: Job, a: Answers, now: Time)
    requires p.maxAttempts >= 1 && Patient(p, job)
    ensures Patient(p, StepJob(p, job, a, now))
    ensures 0 <= StepsLeft(p, job) <= 3 * p.maxAttempts
    ensures Works(job, a) ==> StepsLeft(p, StepJob(p, job, a, now)) < StepsLeft(p, job)
    ensures !Works(job, a) ==> StepsLeft(p, StepJob(p, job, a, now)) == StepsLeft(p, job)
  {
  }

  /** A job that is still live after a step is not due again before the backoff has passed, longer after each error. */
  lemma BacksOff(p: Policy, job: Job, a: Answers, now: Time)
    requires !IsSweepTerminal(job.status)
    ensures var after := StepJob(p, job, a, now);
            !IsSweepTerminal(after.status) ==>
              after.nextAttemptAt >= now + p.backoffMs &&
              (after.attempts > job.attempts ==> after.nextAttemptAt == now + p.backoffMs * after.attempts)
  {
    Multiples(p.backoffMs, job.attempts + 1);
  }

  lemma Multiples(x: nat, n: nat)
    requires n >= 1
    ensures x * n >= x
  {
    assert x * n == x * (n - 1) + x;
    assert x * (n - 1) >= 0;
  }

  ghost predicate AllPatient(p: Policy, s: State) {
    forall jobId :: jobId in s.jobs ==> Patient(p, s.jobs[jobId])
  }

  lemma ApplyKeepsPatient(p: Policy, s: State, e: Event)
    requires p.maxAttempts >= 1 && AllPatient(p, s)
    ensures AllPatient(p, Apply(p, s, e))
  {
    hide StepJob, StepLedger;
    if e.JobProcessed? && e.jobId in s.jobs {
      StepUsesUp(p, s.jobs[e.jobId], e.a, s.now);
    }
  }

  /** A job that still needs processing has attempts left. */
  lemma {:induction false} LiveJobsHaveAttempts(p: Policy, events: seq<Event>, run: seq<State>, i: nat)
    requires p.maxAttempts >= 1 && IsRun(p, events, run) && i < |run|
    ensures AllPatient(p, run[i])
  {
    hide Enabled, Apply;
    if i > 0 {
      hide AllPatient;
      LiveJobsHaveAttempts(p, events, run, i - 1);
      ApplyKeepsPatient(p, run[i - 1], events[i - 1]);
    }
  }

  ghost predicate IsWork(s: State, e: Event, jobId: JobId) {
    e.JobProcessed? && e.jobId == jobId && jobId in s.jobs && Works(s.jobs[jobId], e.a)
  }

  /** How many of the steps from `i` to `j` do work on the job. */
  ghost function WorkDone(events: seq<Event>, run: seq<State>, jobId: JobId, i: nat, j: nat): nat
    requires i <= j <= |events| && |run| == |events| + 1
    decreases j
  {
    if i == j then 0
    else WorkDone(events, run, jobId, i, j - 1) + if IsWork(run[j - 1], events[j - 1], jobId) then 1 else 0
  }

  /** No operator requeues the job between steps `i` and `j`. */
  ghost predicate NotRetried(events: seq<Event>, run: seq<State>, jobId: JobId, i: nat, j: nat)
    requires i <= j <= |events| && |run| == |events| + 1
  {
    forall k :: i <= k < j ==>
      events[k].SweepRetried? && CanRetry(run[k], events[k].id) ==> run[k].byOrderId[events[k].id] != jobId
  }

  lemma OneStepOfWork(p: Policy, s: State, e: Event, jobId: JobId)
    requires p.maxAttempts >= 1 && AllPatient(p, s) && SweepOk(p, s) && Enabled(s, e) && jobId in s.jobs
    requires e.SweepRetried? && CanRetry(s, e.id) ==> s.byOrderId[e.id] != jobId
    ensures jobId in Apply(p, s, e).jobs
    ensures StepsLeft(p, Apply(p, s, e).jobs[jobId]) + (if IsWork(s, e, jobId) then 1 else 0) <= StepsLeft(p, s.jobs[jobId])
  {
    hide StepJob, StepLedger, StepsLeft, Works, DepositsOk, Truthful;
    assert JobOk(s, jobId);
    if e.JobProcessed? && e.jobId in s.jobs {
      StepUsesUp(p, s.jobs[e.jobId], e.a, s.now);
    }
    if e.SweepRetried? && CanRetry(s, e.id) {
      assert JobOk(s, s.byOrderId[e.id]);
    }
  }

  /** Between operator retries a job takes at most three times maxAttempts steps that are not waits. */
  lemma {:induction false} WorkIsBounded(p: Policy, events: seq<Event>, run: seq<State>, jobId: JobId, i: nat, j: nat)
    requires p.maxAttempts >= 1 && IsRun(p, events, run) && i <= j < |run| && jobId in run[i].jobs
    requires NotRetried(events, run, jobId, i, j)
    ensures WorkDone(events, run, jobId, i, j) <= 3 * p.maxAttempts
  {
    hide Apply, Enabled, SweepOk, AllPatient, StepsLeft, NotRetried, WorkDone;
    WorkUsesUp(p, events, run, jobId, i, j);
    LiveJobsHaveAttempts(p, events, run, i);
    LiveJobsHaveAttempts(p, events, run, j);
    StepsLeftInRange(p, run[i], jobId);
    StepsLeftInRange(p, run[j], jobId);
  }

  lemma StepsLeftInRange(p: Policy, s: State, jobId: JobId)
    requires AllPatient(p, s) && jobId in s.jobs
    ensures 0 <= StepsLeft(p, s.jobs[jobId]) <= 3 * p.maxAttempts
  {
    assert Patient(p, s.jobs[jobId]);
  }

  lemma {:induction false} WorkUsesUp(p: Policy, events: seq<Event>, run: seq<State>, jobId: JobId, i: nat, j: nat)
    requires p.maxAttempts >= 1 && IsRun(p, events, run) && i <= j < |run| && jobId in run[i].jobs
    requires NotRetried(events, run, jobId, i, j)
    ensures jobId in run[j].jobs
    ensures WorkDone(events, run, jobId, i, j) + StepsLeft(p, run[j].jobs[jobId]) <= StepsLeft(p, run[i].jobs[jobId])
    decreases j
  {
    hide Apply, Enabled, SweepOk, AllPatient, StepsLeft, IsWork, CanRetry;
    if i < j {
      WorkUsesUp(p, events, run, jobId, i, j - 1);
      LiveJobsHaveAttempts(p, events, run, j - 1);
      AlwaysSweepOk(p, events, run, j - 1);
      OneStepOfWork(p, run[j - 1], events[j - 1], jobId);
    }
  }

  // ---- the bound is reached

  /** Some transaction id is not on the chain yet. */
  lemma FreshTx(ledger: Ledger) returns (x: TxId)
    ensures x !in ledger
  {
    var n := |ledger.Keys|;
    RangeSize(0, n + 1);
    if Range(0, n + 1) <= ledger.Keys {
      SubsetSize(Range(0, n + 1), ledger.Keys);
    }
    x :| x in Range(0, n + 1) && x !in ledger.Keys;
  }

  /** The transaction that the job waits for, if it waits. */
  function Awaited(job: Job): Option<TxId> {
    match job.status
    case GasFueling => job.gasTxId
    case Sweeping => job.sweepTxId
    case _ => None
  }

  /** A job that waits knows what for, and that is on the chain. */
  ghost predicate OnItsWay(s: State, job: Job) {
    job.status == GasFueling || job.status == Sweeping ==> Awaited(job).Some? && Awaited(job).value in s.ledger
  }

  /** Every call throws. */
  function Throwing(): Answers {
    Answers(None, None, External(0), NotSent, NotSent, None, false)
  }

  /** Every call succeeds; the one that sends a transaction gives it the id `x`. */
  function Succeeding(p: Policy, job: Job, x: TxId): Answers {
    Answers(Some(if p.minSweepMicro > 0 then p.minSweepMicro else 0), Some(0), External(0),
            if job.status == SweepPending then Returned(x) else NotSent,
            if job.status == GasFueling then Returned(x) else NotSent, Some(true), true)
  }

  /** The chain has the awaited transaction, and it is confirmed. */
  ghost predicate IsReady(s: State, job: Job) {
    Awaited(job).Some? ==> Awaited(job).value in s.ledger && s.ledger[Awaited(job).value].confirmed
  }

  /** Before the last attempt every call throws. */
  lemma ThrowUsesOne(p: Policy, s: State, jobId: JobId)
    requires jobId in s.jobs && Patient(p, s.jobs[jobId]) && OnItsWay(s, s.jobs[jobId])
    requires !IsSweepTerminal(s.jobs[jobId].status) && s.jobs[jobId].attempts + 1 < p.maxAttempts
    ensures var e := JobProcessed(jobId, Throwing()); var s' := Apply(p, s, e);
            && Enabled(s, e) && jobId in s'.jobs && IsWork(s, e, jobId) && Patient(p, s'.jobs[jobId])
            && OnItsWay(s', s'.jobs[jobId]) && StepsLeft(p, s'.jobs[jobId]) == StepsLeft(p, s.jobs[jobId]) - 1
  {
  }

  /** The last attempt succeeds. */
  lemma SuccessUsesOne(p: Policy, s: State, jobId: JobId, x: TxId)
    requires p.gasMinSun > 0 && x !in s.ledger && jobId in s.jobs
    requires Patient(p, s.jobs[jobId]) && OnItsWay(s, s.jobs[jobId]) && IsReady(s, s.jobs[jobId])
    requires !IsSweepTerminal(s.jobs[jobId].status) && s.jobs[jobId].attempts + 1 >= p.maxAttempts
    ensures var e := JobProcessed(jobId, Succeeding(p, s.jobs[jobId], x)); var s' := Apply(p, s, e);
            && Enabled(s, e) && jobId in s'.jobs && IsWork(s, e, jobId) && Patient(p, s'.jobs[jobId])
            && OnItsWay(s', s'.jobs[jobId]) && StepsLeft(p, s'.jobs[jobId]) == StepsLeft(p, s.jobs[jobId]) - 1
  {
  }

  /** A run takes one more step; what it did before stays as it was. */
  lemma ExtendRun(p: Policy, events: seq<Event>, run: seq<State>, e: Event, jobId: JobId, i: nat)
    requires IsRun(p, events, run) && i <= |events| && Enabled(run[|events|], e)
    ensures IsRun(p, events + [e], run + [Apply(p, run[|events|], e)])
    ensures WorkDone(events + [e], run + [Apply(p, run[|events|], e)], jobId, i, |events| + 1) ==
            WorkDone(events, run, jobId, i, |events|) + if IsWork(run[|events|], e, jobId) then 1 else 0
  {
    hide Enabled, Apply, IsWork;
    var events', run' := events + [e], run + [Apply(p, run[|events|], e)];
    SameWork(events, run, events', run', jobId, i, |events|);
    forall k | 0 <= k < |events'|
      ensures Enabled(run'[k], events'[k]) && run'[k + 1] == Apply(p, run'[k], events'[k])
    {
      if k < |events| {
        assert run'[k] == run[k] && run'[k + 1] == run[k + 1] && events'[k] == events[k];
      }
    }
  }

  lemma {:induction false} SameWork(events: seq<Event>, run: seq<State>, events': seq<Event>, run': seq<State>,
                                    jobId: JobId, i: nat, j: nat)
    requires |run| == |events| + 1 && |run'| == |events'| + 1 && i <= j <= |events| <= |events'|
    requires events'[..|events|] == events && run'[..|run|] == run
    ensures WorkDone(events', run', jobId, i, j) == WorkDone(events, run, jobId, i, j)
    decreases j
  {
    if i < j {
      hide IsWork;
      SameWork(events, run, events', run', jobId, i, j - 1);
      assert events'[..|events|][j - 1] == events'[j - 1] && run'[..|run|][j - 1] == run'[j - 1];
    }
  }

  ghost predicate NoRetries(events: seq<Event>) {
    forall k :: 0 <= k < |events| ==> !events[k].SweepRetried?
  }

  /** Where a run has come: the job has used up part of the bound, from step `i` on. */
  ghost predicate Underway(p: Policy, events: seq<Event>, run: seq<State>, jobId: JobId, i: nat) {
    && IsRun(p, events, run) && |run| == |events| + 1 && NoRetries(events) && i <= |events| && jobId in run[|events|].jobs
    && Patient(p, run[|events|].jobs[jobId]) && OnItsWay(run[|events|], run[|events|].jobs[jobId])
    && WorkDone(events, run, jobId, i, |events|) + StepsLeft(p, run[|events|].jobs[jobId]) == 3 * p.maxAttempts
  }

  /** A step of the run that leaves as much to do as it leaves undone. */
  lemma StayUnderway(p: Policy, events: seq<Event>, run: seq<State>, e: Event, jobId: JobId, i: nat)
    returns (events': seq<Event>, run': seq<State>)
    requires Underway(p, events, run, jobId, i) && Enabled(run[|events|], e) && !e.SweepRetried?
    requires var s' := Apply(p, run[|events|], e);
             && jobId in s'.jobs && Patient(p, s'.jobs[jobId]) && OnItsWay(s', s'.jobs[jobId])
             && StepsLeft(p, s'.jobs[jobId]) + (if IsWork(run[|events|], e, jobId) then 1 else 0) ==
                StepsLeft(p, run[|events|].jobs[jobId])
    ensures Underway(p, events', run', jobId, i)
    ensures |run'| == |run| + 1 == |events'| + 1 && run'[..|run|] == run && run'[|events'|] == Apply(p, run[|events|], e)
  {
    hide IsRun, Enabled, Apply, IsWork, StepsLeft, Patient, OnItsWay;
    events', run' := events + [e], run + [Apply(p, run[|events|], e)];
    ExtendRun(p, events, run, e, jobId, i);
    assert run'[|events'|] == Apply(p, run[|events|], e);
  }

  /** What the job waits for gets confirmed. */
  lemma Confirm(p: Policy, events: seq<Event>, run: seq<State>, jobId: JobId, i: nat)
    returns (events': seq<Event>, run': seq<State>)
    requires Underway(p, events, run, jobId, i)
    ensures Underway(p, events', run', jobId, i)
    ensures |run| <= |run'| && run'[..|run|] == run
    ensures run'[|events'|].jobs == run[|events|].jobs && IsReady(run'[|events'|], run'[|events'|].jobs[jobId])
  {
    var s := run[|events|];
    if Awaited(s.jobs[jobId]).None? {
      return events, run;
    }
    var e := TxConfirmed(Awaited(s.jobs[jobId]).value);
    hide IsRun, WorkDone, NoRetries, StepsLeft, Patient;
    events', run' := StayUnderway(p, events, run, e, jobId, i);
  }

  /** The job takes every step that is left to it. */
  lemma {:induction false} Exhaust(p: Policy, events: seq<Event>, run: seq<State>, jobId: JobId, i: nat)
    returns (events': seq<Event>, run': seq<State>)
    requires p.gasMinSun > 0 && Underway(p, events, run, jobId, i)
    ensures IsRun(p, events', run') && NoRetries(events') && i <= |events'|
    ensures WorkDone(events', run', jobId, i, |events'|) == 3 * p.maxAttempts
    ensures |run| <= |run'| && run'[..|run|] == run
    decreases StepsLeft(p, run[|events|].jobs[jobId])
  {
    hide IsRun, NoRetries, WorkDone, OnItsWay, IsReady, IsWork, Enabled, Apply, StepsLeft, Patient;
    var s := run[|events|];
    var job := s.jobs[jobId];
    StepsLeftIsBounded(p, job);
    if IsSweepTerminal(job.status) {
      return events, run;
    }
    if job.attempts + 1 < p.maxAttempts {
      ThrowUsesOne(p, s, jobId);
      events', run' := StayUnderway(p, events, run, JobProcessed(jobId, Throwing()), jobId, i);
    } else {
      events', run' := Confirm(p, events, run, jobId, i);
      var ready := run'[|events'|];
      var x := FreshTx(ready.ledger);
      SuccessUsesOne(p, ready, jobId, x);
      events', run' := StayUnderway(p, events', run', JobProcessed(jobId, Succeeding(p, job, x)), jobId, i);
    }
    var sofar := run';
    assert |run| <= |sofar| && sofar[..|run|] == run;
    events', run' := Exhaust(p, events', run', jobId, i);
    assert run'[..|run|] == run'[..|sofar|][..|run|];
  }

  lemma StepsLeftIsBounded(p: Policy, job: Job)
    requires Patient(p, job)
    ensures StepsLeft(p, job) >= 0 && (IsSweepTerminal(job.status) ==> StepsLeft(p, job) == 0)
  {
  }

  /**
   The bound is exact: for every policy that fuels gas there is a run in which a job
   that no operator requeues takes exactly three times maxAttempts working steps.
   */
  lemma BoundIsReached(p: Policy, now: Time) returns (events: seq<Event>, run: seq<State>, i: nat)
    requires p.gasMinSun > 0 && p.maxAttempts >= 1
    ensures IsRun(p, events, run) && i <= |events| && 0 in run[i].jobs
    ensures NotRetried(events, run, 0, i, |events|)
    ensures WorkDone(events, run, 0, i, |events|) == 3 * p.maxAttempts
  {
    var s0 := Initial(map[], now);
    var s1 := Apply(p, s0, DepositAllocated(0, true));
    var e := SweepEnqueued(0, 0, External(1));
    events, run := [DepositAllocated(0, true), e], [s0, s1, Apply(p, s1, e)];
    assert s1.deposits == map[0 := Deposit(p.hdStartIndex + 1, Derived(p.hdStartIndex + 1), 0)];
    assert Underway(p, events, run, 0, 2);
    hide IsRun, WorkDone, Underway;
    i := 2;
    var start := run;
    events, run := Exhaust(p, events, run, 0, 2);
    assert run[2] == run[..|start|][2];
  }
}
