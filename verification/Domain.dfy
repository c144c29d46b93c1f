/** The records the payment services store, and the order state machine. */
module Domain {
  import opened Wrappers
  import Money

  datatype Error = NotFound | InvalidState | InvalidInput | ProviderFailure | AmountMismatch | Duplicate

  datatype Result<T> = Ok(value: T) | Err(error: Error)

  // Identifiers are opaque tokens; fresh ones never repeat.
  type OrderId = int
  type UserId = int
  type PlanId = int
  type RefundId = int
  type SubId = int
  type TxId = int
  type Label = int
  type Time = int

  type Currency = Money.Currency

  datatype Method = Wechat | Alipay | Usdt

  function CurrencyOf(m: Method): Currency {
    if m == Usdt then Money.USDT else Money.CNY
  }

  /** WeChat and Alipay pay in fen, two decimals of a yuan; USDT is paid in micro units. */
  lemma CurrencyByMethod(m: Method)
    ensures CurrencyOf(m) == match m case Wechat => Money.CNY case Alipay => Money.CNY case Usdt => Money.USDT
  {
  }

  /** Deposit addresses are derived from an index, injectively; other addresses are never derived. */
  datatype Address = Derived(index: nat) | External(name: nat)

  // ---- orders

  datatype OrderStatus = Pending | Paid | Fulfilled | Expired | Cancelled | Refunded | Failed

  /** The direct transitions of the order state machine. */
  function Transitions(from: OrderStatus): set<OrderStatus> {
    match from
    case Pending => {Paid, Expired, Cancelled, Failed}
    case Paid => {Fulfilled, Refunded}
    case Fulfilled => {Refunded}
    case _ => {}
  }

  predicate CanTransition(from: OrderStatus, to: OrderStatus) {
    to in Transitions(from)
  }

  /** The legal transitions, all of them. */
  lemma LegalTransitions(from: OrderStatus, to: OrderStatus)
    ensures CanTransition(from, to) <==>
            (from, to) in {(Pending, Paid), (Pending, Expired), (Pending, Cancelled), (Pending, Failed),
                           (Paid, Fulfilled), (Paid, Refunded), (Fulfilled, Refunded)}
  {
  }

  predicate IsTerminal(status: OrderStatus) {
    Transitions(status) == {}
  }

  /** The target of a legal transition; staying in a state is always legal. */
  function AssertTransition(from: OrderStatus, to: OrderStatus): Result<OrderStatus> {
    if from == to then Ok(to) else if CanTransition(from, to) then Ok(to) else Err(InvalidState)
  }

  /** How far along its life an order is. */
  function Stage(status: OrderStatus): nat {
    match status
    case Pending => 0
    case Paid => 1
    case Fulfilled => 2
    case _ => 3
  }

  /** Every transition moves an order forward, and exactly the last stage is terminal. */
  lemma TransitionsMoveForward(from: OrderStatus, to: OrderStatus)
    ensures CanTransition(from, to) ==> Stage(from) < Stage(to)
    ensures IsTerminal(from) <==> Stage(from) == 3
  {
    assert Paid in Transitions(Pending) && Fulfilled in Transitions(Paid) && Refunded in Transitions(Fulfilled);
  }

  /** `to` can be reached from `from` by legal transitions, none included. */
  ghost predicate Reaches(from: OrderStatus, to: OrderStatus)
    decreases 3 - Stage(from)
  {
    from == to || exists mid :: CanTransition(from, mid) && Stage(from) < Stage(mid) && Reaches(mid, to)
  }

  lemma {:induction false} ReachesTransitive(a: OrderStatus, b: OrderStatus, c: OrderStatus)
    requires Reaches(a, b) && Reaches(b, c)
    ensures Reaches(a, c)
    decreases 3 - Stage(a)
  {
    if a != b {
      var mid :| CanTransition(a, mid) && Stage(a) < Stage(mid) && Reaches(mid, b);
      ReachesTransitive(mid, b, c);
    }
  }

  /** A terminal order stays as it is. */
  lemma TerminalReachesItself(from: OrderStatus, to: OrderStatus)
    requires IsTerminal(from) && Reaches(from, to)
    ensures from == to
  {
  }

  datatype Order = Order(
    id: OrderId,
    outTradeNo: Label,
    userId: UserId,
    planId: PlanId,
    payMethod: Method,
    amount: nat,
    status: OrderStatus,
    providerTxnId: Option<TxId>,
    createdAt: Time,
    expiresAt: Time,
    paidAt: Option<Time>,
    refundedAmount: int,
    depositAddress: Option<Address>)

  /** The order has been paid and access has been granted for it. */
  predicate Settled(o: Order) {
    o.status == Fulfilled || o.status == Refunded
  }

  // ---- refunds

  datatype RefundStatus = RefundPending | RefundSuccess | RefundFailed | RefundManual

  datatype Refund = Refund(id: RefundId, orderId: OrderId, outRefundNo: Label, amount: int, status: RefundStatus)

  /** The refund's funds have left. */
  predicate IsSettledRefund(status: RefundStatus) {
    status == RefundSuccess || status == RefundManual
  }

  // ---- subscriptions

  datatype Subscription = Subscription(
    id: SubId,
    userId: UserId,
    startsAt: Time,
    expiresAt: Time,
    active: bool,
    orderIds: seq<OrderId>,
    notifiedAt: Option<Time>)

  datatype Plan = Plan(durationMs: nat, priceCnyFen: nat, priceUsdtMicro: nat)

  // ---- events and transfers

  /** Keys of the dedupe store: payment callbacks, refund callbacks and polled transactions. */
  datatype EventKey =
    | CallbackKey(m: Method, eventId: Label)
    | RefundKey(m: Method, eventId: Label)
    | TxnKey(m: Method, txId: TxId)

  /** An incoming token transfer on chain. */
  datatype Transfer = Transfer(txId: TxId, to: Address, value: nat, timestamp: Time, confirmed: bool)
}
