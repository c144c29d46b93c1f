# Verified model of the payment backend

This project models the core of a payment backend that sells access plans for WeChat,
Alipay and USDT payments, and proves what its services promise about money, access time
and symbols. It has two parts.

**The QR codec.** `Gf256` builds the log tables and proves that table multiplication is
multiplication of polynomials over GF(2) modulo 0x11D, hence a field. `ReedSolomon` proves
that the encoder's shift register divides by the generator: data followed by its error
correction is zero at every root, and no other error correction of that length is.
`QrBits`, `QrBlocks`, `QrCodewords`, `QrLayout`, `QrCode` and `QrMatrix` follow a text
through bit packing, padding, block interleaving, zig-zag placement, masking and back: the
decoder returns every text that some version can hold. `QrCapacity` proves that the block
table fills the grid, protects it at level M and gives the published capacities, and
`QrStream` says place by place what the stream contains, so that every block a scanner
collects has zero syndromes.

**The money protocol.** `Domain` and `Protocol` describe what each critical section of the
payment, refund and expiry services does to the stored records, and runs of such steps of
any length in any order, including lost payments, replayed callbacks and deletion of
dedupe records. Over every run,

- `OrderBook` proves what a new order says, that its terms never change and that its numbers
  find it, and `Sales` that each settled order took a payment of its own, in its currency
  and of at least its amount, that a callback or poll had announced;
- `RefundAnswers` traces the status of every refund to what a provider answered or
  reported, and `Deadlines` says when reminders are sent and when things expire;
- `RefundLedger` proves that each order's `refundedAmount` is the sum of its refunds that
  have not failed and never exceeds the order, and says exactly when REFUNDED means that all
  the money has left;
- `Access` proves that every settled order buys its plan's duration exactly once, that a
  user's subscriptions never overlap, that sold time equals granted time, that terminal
  orders are never revived and that reminders are sent once per period;
- `Settlement` proves that one USDT transaction settles one order although dedupe records
  are deleted, with the retention time that is exactly needed;
- `Income` proves that distinct confirmed transfers to the shop's own addresses cover what
  was sold for USDT, and `Attribution` says whose transfer may pay for an order on the
  shared address;
- `LostPayments` says what becomes of a payment that is lost on its way, and `Notices` what
  becomes of reminders and notices of expiry that the notifier fails to send;
- `Collection` joins the shop to the sweep pipeline: what is collected comes from the
  addresses on which settled orders were paid;
- `Reconciliation` proves that the auditor never reports anything but stale orders, and
  nothing at all after healing.

`Stores`, `PaymentService`, `RefundService`, `ExpiryService`, `SweepService` and
`Reconciliation` hold the repositories and services as classes that change their maps in
place; each method is proved to take exactly the steps of the protocol. `Locker` proves
that the promise chain behind the per-order lock makes critical sections serial and never
deadlocks, and `CriticalSections` that sections which read a copy and write it back then
come to the same as sections that run alone, which is why the protocol may take one
critical section as one step. `Sweep` is the collection
pipeline for per-order deposits, with treasury calls that throw before or after their
broadcast; `SweepSteps` says of each step what it sends, when, and where it leads. `RateLimiter`, `RedisRateLimiter`, `Money` and `Csv` are the limiters, the
decimal money printer and parser, and the CSV printer. `Finite`, `Sequences` and `Wrappers`
hold counting and sums, facts about concatenation, and optional values.

## Assumptions

- A critical section is one step, justified by `CriticalSections`; the payment and the refund
  service share one locker (src/container.ts:216-242).
- Creating an order, from choosing its amount to storing the provider's answer, is one
  step: the write at src/services/paymentService.ts:148 is outside the lock and would
  overwrite a settlement that came in between.
- Steps that touch the subscription of one user do not overlap; the lock is per order, while
  src/services/subscriptionService.ts:32-51 reads and writes per user.
- There is one sweep worker, and repository calls do not fail. Providers and the treasury
  may throw.
- The catalogue is fixed, and its prices and durations are positive. New ids are new.
- Verified callbacks carry CNY amounts (src/providers/wechat/wechatPay.ts:131,
  src/providers/alipay/alipay.ts:95); USDT has no callbacks. A transaction id names one
  transfer, and a transfer is not dated after it is observed.
- Deposit addresses are derived injectively from their index. The treasury's word is
  taken that a transaction it calls confirmed has moved the funds; the adapter at
  src/providers/usdt/tronWebTreasury.ts:320-344 counts blocks and would also accept a
  transaction that was mined and reverted.
- The Redis limiter and its store share a clock, and one check happens at one instant.

Settlement is claimed to be safe, not to happen: an event is marked before it is applied
(src/services/paymentService.ts:199), so a failure in between loses the payment. The
protocol has such lost payments as steps of their own. While the mark is kept, replays of the
event change nothing (`LostPayments.ReplayDoesNothing`), and a lost USDT payment neither
gets under way again nor settles its order (`LostWhileMarked`). A poll settles a pending order
exactly if the transaction itself is not marked (`PollSettlesUnlessMarked`): after a lost
callback at once, after a lost poll only when its mark has been deleted.

## Where the promise and the code differ

- *REFUNDED means that all of the money has left* is false: `RefundLedger.OverlappingRefunds`
  is a run in which a refund is issued while another is pending, which then fails.
  `IssueCompletes` and `ResolveCompletes` give the exact condition, that no other refund of
  the order is pending, and `RefundedMeansSettled` proves the promise for runs that
  keep it.
- *One transaction settles one order* fails when dedupe records are kept for less than
  the order lifetime plus five minutes plus the delay of the expiry job:
  `Settlement.ShortMemorySettlesTwice` is a run for every such configuration, and
  `LongMemorySettlesOnce` proves the promise for every other. Orders with their own
  address never need the records.
- On the shared address a transfer need not pay for the order whose customer made it. It can
  come to settle a later order of the same amount if and only if that order is created within
  the five minutes of tolerance after the transfer
  (`Attribution.MisattributedIffWithinTolerance`); `LateTransferPaysForAnother` is a run for
  every such gap, and `PaidAfterwards` shows for every run that no other gap is possible.
- *Users are told when their subscription ends* fails exactly for those for whom the notifier
  throws, because the record is changed first (`Notices.LostIffItThrows`):
  `FailedNoticeIsLost` shows that no later pass at any later time makes up for it, and
  `NoticeGetsLost` is a run. A pass fails if and only if the notifier throws for one of those
  that are over. A reminder whose notifier throws stays due until it has been sent or the
  subscription has ended or been renewed (`DueUntilReminded`, `FailedReminderStaysDue`).
- The in-process limiter allows one request less than twice its maximum in an interval of one
  window length, and that many are possible; with a window of one millisecond it is the
  maximum (`RateLimiter.MostAllowed`).
- From version 7 on the two alignment patterns on the timing lines are not drawn, because
  those lines are reserved already (src/qr/qrEncoder.ts:290). The forty cells that they would
  hide beside the lines carry data, so the codewords end five short of the grid
  (`QrCapacity.CodewordsFillGrid`); the round trip is not affected.
- A table without columns is not recovered from its CSV text (`Csv.NoColumns`).

## Model

| member | source | states |
|---|---|---|
| Gf256.PowersCover | src/qr/qrEncoder.ts:19-31 | every non-zero byte is a power of the generator below 255, so the log table is total |
| Gf256.PowersDistinct | src/qr/qrEncoder.ts:19-31 | the first 255 powers differ, so logs are unique |
| Gf256.DoubleReduces | src/qr/qrEncoder.ts:24-29 | one turn of the table loop doubles the power and takes 0x11D off when it no longer fits eight bits |
| Gf256.MulIsPolyMul | src/qr/qrEncoder.ts:33-36 | multiplication by adding logs is polynomial multiplication modulo 0x11D, for every pair of bytes |
| Gf256.MulDistributes | src/qr/qrEncoder.ts:33-36 | multiplication distributes over xor on both sides |
| Gf256.MulAssoc | src/qr/qrEncoder.ts:33-36 | multiplication is associative |
| Gf256.Tables.constructor | src/qr/qrEncoder.ts:19-31 | the table loop fills the exponent and log tables with powers of the generator and their logs |
| Gf256.Tables.GfMul | src/qr/qrEncoder.ts:33-36 | the table lookup computes field multiplication |
| ReedSolomon.GeneratorRoots | src/qr/qrEncoder.ts:47-58 | the generator polynomial vanishes at exactly the first `degree` powers of the generator element |
| ReedSolomon.RsGenerator | src/qr/qrEncoder.ts:47-58 | the double loop builds the product of the factors (x + a^i) |
| ReedSolomon.ShiftIsDivisionStep | src/qr/qrEncoder.ts:61-73 | one turn of the shift register is one step of the division by the generator |
| ReedSolomon.EncodeHasZeroSyndromes | src/qr/qrEncoder.ts:61-73 | data of any length followed by its error correction is zero at every root of the generator |
| ReedSolomon.TooManyRoots | src/qr/qrEncoder.ts:61-73 | a polynomial that vanishes at as many consecutive powers as it has coefficients is zero |
| ReedSolomon.EncodeIsUnique | src/qr/qrEncoder.ts:61-73 | up to 255 check bytes have zero syndromes if and only if they are the encoder's |
| ReedSolomon.RsEncode | src/qr/qrEncoder.ts:61-73 | the in-place loop returns the error correction, with zero syndromes |
| QrBits.BitBuffer.Put | src/qr/qrEncoder.ts:116-124 | appends the binary numeral of the value at the given width |
| QrBits.BitOfCodes | src/qr/qrEncoder.ts:116-124 | bit j of codeword i is bit 8·i + j of the stream, the most significant bit first |
| QrBits.NeedIsLength | src/qr/qrEncoder.ts:144-155 | the size formula equals the number of bits that are emitted |
| QrBits.ReadWritten | src/qr/qrEncoder.ts:488-509 | reading a stream that starts with an encoded text returns the text, whatever follows |
| QrStream.DigitsAreNumeric | src/qr/qrEncoder.ts:105-107 | a text is numeric if and only if it is the print of some digits |
| QrStream.HeaderBits | src/qr/qrEncoder.ts:126-130 | 0001 for digits and 0100 for other text, then the length in 10 or 8 bits, 12 or 16 in version 10, then the payload |
| QrStream.BitsOfDigits | src/qr/qrEncoder.ts:131-135 | the digits go three to ten bits as their number; two that remain take seven bits and one takes four |
| QrBlocks.DeinterleaveInterleaved | src/qr/qrEncoder.ts:190-198 | for every list of blocks, de-interleaving the interleaved stream and anything after it returns the blocks |
| QrBlocks.FlattenSplit | src/qr/qrEncoder.ts:178-188 | splitting data into blocks and joining them again returns the data |
| QrBlocks.InterleaveTotal | src/qr/qrEncoder.ts:190-198 | interleaving neither drops nor adds a codeword |
| QrBlocks.InterleaveBlocks | src/qr/qrEncoder.ts:190-198 | the nested loops interleave the blocks round by round |
| QrBlocks.DeinterleaveStream | src/qr/qrEncoder.ts:476-486 | the decoder's nested loops put every codeword back at its place |
| QrCodewords.ChooseVersion | src/qr/qrEncoder.ts:144-155 | the smallest version that fits, and none exactly when no version fits |
| QrCodewords.CountFits | src/qr/qrEncoder.ts:110-114 | whatever fits a version has a length that its character count field can hold |
| QrCapacity.FitsUpToCapacity | src/qr/qrEncoder.ts:144-155 | a text fits a version if and only if it is no longer than the published capacity of level M, for digits and for bytes |
| QrCapacity.CodewordsFillGrid | src/qr/qrEncoder.ts:75-88 | the blocks of a version use every whole codeword of its grid, and from version 7 on all but five |
| QrCapacity.CorrectsLevelM | src/qr/qrEncoder.ts:75-88 | the blocks of every version can correct at least 15 and less than 25 of 100 codewords |
| QrCapacity.BlockCounts | src/qr/qrEncoder.ts:75-88 | how many blocks the data of each version is divided into |
| QrCapacity.BlocksAreEven | src/qr/qrEncoder.ts:178-185 | the data is divided evenly, and the blocks with one codeword more come last |
| QrCodewords.EncodeData | src/qr/qrEncoder.ts:126-142 | the emitted bits are mode, count and payload of the text |
| QrCodewords.DataCodewordsFill | src/qr/qrEncoder.ts:162-176 | terminator, alignment and pad bytes fill the capacity exactly and keep the text's bits in front |
| QrStream.PaddingIs | src/qr/qrEncoder.ts:162-175 | after the text come zeros up to a whole codeword, and then 0xEC and 0x11 in turn |
| QrCodewords.BuildCodewords | src/qr/qrEncoder.ts:157-199 | the whole pipeline returns the interleaved data and error correction of the text |
| QrStream.DataAt | src/qr/qrEncoder.ts:190-194 | where in the stream each data codeword of each block lies |
| QrStream.EcAt | src/qr/qrEncoder.ts:195-198 | where in the stream each error-correction codeword of each block lies |
| QrStream.CollectedIsProtected | src/qr/qrEncoder.ts:178-198 | the codewords that a scanner collects for a block from those places have only zero syndromes |
| QrCodewords.ReadBuilt | src/qr/qrEncoder.ts:470-509 | reading the codewords back, with anything after them, returns the text |
| QrLayout.ZigZagCells | src/qr/qrEncoder.ts:332-353 | for any reservation, the zig-zag visits each free cell outside column 6 exactly once |
| QrLayout.DataCellsAreFree | src/qr/qrEncoder.ts:332-353 | the placement order of a version lists exactly its free cells, each once |
| QrLayout.DataCellsInOrder | src/qr/qrEncoder.ts:332-353 | the free cells come strip by strip from the right, the first upwards and then in turn, the right column first |
| QrLayout.DataCellCount | src/qr/qrEncoder.ts:252-322 | exactly how many cells of each version the function patterns leave free |
| QrCode.CodewordsFitCells | src/qr/qrEncoder.ts:334-353 | all codewords of a version fit into its free cells |
| QrCode.SymbolBitsAre | src/qr/qrEncoder.ts:338-349 | data cell k carries bit k of the codewords and is light beyond them |
| QrCode.MaskStripes | src/qr/qrEncoder.ts:210-216 | masks 0 to 4 by the residues of row and column |
| QrCode.MaskProducts | src/qr/qrEncoder.ts:217-219 | masks 5 to 7 by the residue of the product of row and column |
| QrCode.DecodeSymbolBits | src/qr/qrEncoder.ts:455-509 | decoding the bits of a symbol returns its text |
| QrCode.SymbolsDistinct | src/qr/qrEncoder.ts:325-353 | different texts of one version have different symbols |
| QrMatrix.FunctionLayout | src/qr/qrEncoder.ts:252-322 | the loops reserve exactly the cells of the function patterns |
| QrMatrix.PlaceBits | src/qr/qrEncoder.ts:332-353 | the placement loop writes the codewords' bits into the free cells in order and changes no reserved cell |
| QrMatrix.ApplyMask | src/qr/qrEncoder.ts:355-362 | masking flips exactly the free cells that the mask selects |
| QrMatrix.WriteFormat | src/qr/qrEncoder.ts:368-382 | both copies show every format bit at its place, and no cell outside the format areas changes |
| QrMatrix.FormatCellsAre | src/qr/qrEncoder.ts:368-382 | the places of the fifteen bits in both copies, one by one |
| QrMatrix.WriteVersion | src/qr/qrEncoder.ts:384-394 | both mirrored copies show every version bit at its place, and no cell outside the version areas changes |
| QrMatrix.VersionCellsAre | src/qr/qrEncoder.ts:384-394 | the block is filled row by row, three bits a row |
| QrMatrix.EncodeToMatrix | src/qr/qrEncoder.ts:325-366 | the symbol shows the text in the smallest version, both areas of information and the function patterns; there is none exactly when nothing fits |
| QrMatrix.DecodeForTest | src/qr/qrEncoder.ts:451-509 | returns the text that the symbol shows |
| QrMatrix.EncodeThenDecode | src/qr/qrEncoder.ts:451-509 | decoding the symbol of a text returns the text, for every text that fits a version |
| Locker.InvAlways | src/storage/memoryStore.ts:303-321 | in every interleaving each call is preceded by finished calls of its key once it may enter |
| Locker.MutualExclusion | src/storage/memoryStore.ts:303-321 | two running calls of one key are the same call |
| Locker.FirstComeFirstServed | src/storage/memoryStore.ts:303-321 | a call runs only after all earlier calls of its key are done |
| Locker.NoTailMeansIdle | src/storage/memoryStore.ts:315-319 | a key without a tail entry has no unfinished call, so a fresh chain never overlaps an old one |
| Locker.TailMeansBusy | src/storage/memoryStore.ts:306-320 | a key has a tail entry if and only if one of its calls is not over, so entries are cleaned up |
| Locker.CriticalSectionsAreSerial | src/storage/memoryStore.ts:306-320 | the actions of the critical sections of one key are never interleaved and come in order of arrival |
| Locker.WaitingIsNotStuck | src/storage/memoryStore.ts:307-312 | a call that waits behind finished calls can enter, or an unsettled promise before it can settle |
| Locker.NoDeadlock | src/storage/memoryStore.ts:303-321 | in every reachable state every call can still complete, whoever came before it |
| CriticalSections.SectionsAreAtomic | src/storage/memoryStore.ts:306-320 | in every run, sections that read a copy and write back what they make of it leave what they would leave if each had run alone, in order of arrival |
| Locker.InProcessLocker.Link | src/storage/memoryStore.ts:306-311 | a caller joins the chain of its key behind the current tail |
| Locker.InProcessLocker.Begin | src/storage/memoryStore.ts:312-314 | the caller whose turn has come is then the only one running for its key |
| Locker.InProcessLocker.Release | src/storage/memoryStore.ts:315-319 | releasing opens the gate and removes the tail entry only if it is the caller's |
| Domain.TransitionsMoveForward | src/core/orderStateMachine.ts:8-30 | every legal transition moves forward, and exactly the last stage is terminal |
| Domain.LegalTransitions | src/core/orderStateMachine.ts:8-30 | the seven legal transitions, and no other |
| Domain.CurrencyByMethod | src/services/paymentService.ts:99 | WeChat and Alipay orders are in CNY, USDT orders in USDT |
| Domain.ReachesTransitive | src/core/orderStateMachine.ts:8-46 | legal transitions compose |
| Domain.TerminalReachesItself | src/core/orderStateMachine.ts:8-30 | nothing is reached from a terminal state |
| UsdtTron.AllocateUniqueAmount | src/providers/usdt/usdtTron.ts:40-51 | the least free amount in range, and an error exactly when all are taken |
| UsdtTron.AmountAvailable | src/providers/usdt/usdtTron.ts:40-51 | an amount is free whenever at most maxDelta amounts of the range are taken |
| UsdtTron.MatchTransfer | src/providers/usdt/usdtTron.ts:53-70 | the first confirmed unclaimed transfer of the exact amount, none if there is none |
| UsdtTron.MatchByAddress | src/providers/usdt/usdtTron.ts:72-93 | the first confirmed unclaimed transfer to the order's address that covers the amount, none if there is none |
| UsdtTron.FirstIsOne | src/providers/usdt/usdtTron.ts:54-93 | the first matching transfer is unique, and there is none exactly when no listed transfer matches |
| Protocol.AmountDueUnique | src/services/paymentService.ts:165-177 | an order has at most one amount due |
| Protocol.DeliverOrders | src/services/paymentService.ts:258-304 | a payment changes at most its own order, from PENDING, and no refund |
| OrderBook.OrderCreated | src/services/paymentService.ts:95-158 | a new order has the buyer, plan and method that were asked for, at the price of that plan; it is unpaid, pending or failed, and found under its numbers; a taken trade number changes no order |
| OrderBook.OrderAddress | src/services/paymentService.ts:124-131 | an order has an address of its own exactly in that mode of USDT, and then from an index that is used for the first time |
| OrderBook.SharedAmountDue | src/services/paymentService.ts:165-177 | on the shared address the amount due is the first from the list price on that no pending USDT order asks for |
| OrderBook.PaymentOutcome | src/services/paymentService.ts:258-332 | a payment settles its order exactly if that is pending and the payment is in its currency and at least its amount; the order then has its transaction and time; otherwise neither orders nor access change |
| OrderBook.UnderpaidStaysPending | src/services/paymentService.ts:277-282 | a payment of less than the amount changes no order |
| OrderBook.TermsNeverChange | src/services/paymentService.ts:85-353 | along every run an order keeps its buyer, plan, method, price, times and address |
| OrderBook.BookAlwaysOk | src/storage/memoryStore.ts:43-78 | in every run each order is found under its own trade number and costs what its plan costs |
| OrderBook.RepeatedKeyFindsOrder | src/services/paymentService.ts:85-93 | a repeated idempotency key finds the order of the first request at any later time |
| Sales.SettledWasPaid | src/services/paymentService.ts:183-332 | in every run each paid order took a payment of its own, in its currency and of at least its amount, at the time it says, which a callback or poll had announced before |
| Sales.SettledWasReported | src/services/paymentService.ts:183-251 | so a step of the run reported at least its amount for it |
| Sales.ReportsCoverSales | src/services/paymentService.ts:183-332 | in every run the CNY sales together never exceed what callbacks and polls have reported |
| RefundAnswers.CheckIs | src/services/refundService.ts:65-86 | a request is in order exactly if the order is PAID or FULFILLED and the amount positive and within what its refunds have left; and the error for each other case |
| RefundAnswers.RefundRecorded | src/services/refundService.ts:65-113 | a request in order under a new number is recorded with its amount and the answer of the provider, MANUAL for USDT; any other changes nothing |
| RefundAnswers.FailedRefundMovesNothing | src/services/refundService.ts:115-123 | a refund that the provider fails changes no order |
| RefundAnswers.ResultRecorded | src/services/refundService.ts:176-188 | a result settles or fails exactly the pending refund of its number |
| RefundAnswers.ReleaseIs | src/services/refundService.ts:195-198 | a failed result gives back what was reserved, and never more |
| RefundAnswers.RefundsAreExplained | src/services/refundService.ts:57-208 | in every run each refund was asked for, and its status is what was answered then or reported for it later |
| RefundAnswers.ManualIsUsdtOrAnswered | src/services/refundService.ts:90-98 | in every run a MANUAL refund is of a USDT order or was answered so |
| RefundLedger.AlwaysBalanced | src/services/refundService.ts:57-221 | in every run `refundedAmount` is the sum of the refunds that have not failed, lies between 0 and the amount, and an order refunded in full without pending refunds is REFUNDED |
| RefundLedger.ReleaseNeverClamps | src/services/refundService.ts:196-198 | a failed refund never releases more than is reserved |
| RefundLedger.FullRefundReservesAll | src/services/refundService.ts:72-74 | a refund without an amount, unless it fails at once, reserves all that is left |
| RefundLedger.FullyLeft | src/services/refundService.ts:210-221 | settled refunds make up the amount if and only if it is reserved in full and none is pending |
| RefundLedger.IssueCompletes | src/services/refundService.ts:117-123 | when issuing a refund makes an order REFUNDED, all its money has left if and only if no other refund is pending |
| RefundLedger.ResolveCompletes | src/services/refundService.ts:192-199 | the same for a refund result |
| RefundLedger.RefundedMeansSettled | src/services/refundService.ts:57-221 | without overlapping refunds every REFUNDED order has been refunded in full by settled refunds |
| RefundLedger.OverlappingRefunds | src/services/refundService.ts:192-221 | a run with overlapping refunds in which a REFUNDED order has not been refunded in full |
| Access.AlwaysAccessOk | src/services/subscriptionService.ts:21-81 | in every run a subscription lasts as long as its orders' plans add up to, subscriptions of a user never overlap, and no order stays PAID |
| Access.SettledExactlyOnce | src/services/paymentService.ts:183-332 | an order occurs in some subscription if and only if it is FULFILLED or REFUNDED, and never twice |
| Access.GrantAddsTime | src/services/subscriptionService.ts:28-73 | fulfilment adds the plan's time behind the end of the current access, or from now on if there is none, and calls for a new reminder |
| Access.IndexAgreesWithScan | src/storage/memoryStore.ts:246-273 | an active subscription that has not expired is the indexed one; any other active record has expired |
| Access.TimeIsConserved | src/services/subscriptionService.ts:28-73 | for every user granted time equals the durations of the user's settled orders |
| Access.RemindedOnce | src/services/expiryService.ts:28-54 | no reminder is sent twice for the same subscription and expiry |
| Access.NeverRevived | src/core/orderStateMachine.ts:8-46 | over any stretch of a run orders move along legal transitions, and terminal ones stay |
| Settlement.AlwaysClaimsOk | src/services/paymentService.ts:233-251 | whatever claims a transaction is backed by the chain and dated, in every run |
| Settlement.OwnAddressesNeedNoMemory | src/providers/usdt/usdtTron.ts:78-93 | with an address per order no transaction settles two orders, however short the retention |
| Settlement.LongMemorySettlesOnce | src/storage/memoryStore.ts:280-296 | with retention of at least lifetime plus five minutes plus expiry delay, no transaction settles two orders in any run |
| Settlement.ShortMemorySettlesTwice | src/storage/memoryStore.ts:280-296 | for every shorter retention there is a run in which one transaction settles two orders |
| Settlement.AmountsAlwaysDiffer | src/services/paymentService.ts:165-177 | pending USDT orders on the shared address always have different amounts |
| Settlement.TransferMatchesOne | src/providers/usdt/usdtTron.ts:53-70 | a transfer matches at most one pending order |
| Attribution.PaidAfterwards | src/providers/usdt/usdtTron.ts:60-70 | a transfer made at any time while one order was pending settles another of the same amount only if that was created afterwards, within the clock tolerance |
| Attribution.TakenWithinTolerance | src/providers/usdt/usdtTron.ts:60-70 | a transfer of the exact amount may be reported for a pending order if and only if the order is not created more than the tolerance after it |
| Attribution.TakenSettles | src/services/paymentService.ts:233-304 | and then, if it is not marked, the poll settles the order |
| Attribution.LateTransferPaysForAnother | src/providers/usdt/usdtTron.ts:60-70 | for every gap up to the tolerance, in every shop with a shared address, there is a run in which that happens |
| Attribution.MisattributedIffWithinTolerance | src/providers/usdt/usdtTron.ts:60-70 | such a run exists if and only if the gap is within the tolerance |
| LostPayments.ReplayDoesNothing | src/services/paymentService.ts:198-203 | an event whose mark is kept changes nothing |
| LostPayments.MarksAreKept | src/storage/memoryStore.ts:286-296 | a sweep keeps exactly the marks that are no older than the retention time |
| LostPayments.UnderWayMeansNew | src/services/paymentService.ts:198-249 | a payment gets under way only by an event that announces it and was not marked |
| LostPayments.LostWhileMarked | src/services/paymentService.ts:242-249 | over any stretch of a run in which its mark is kept, a lost USDT payment neither gets under way again nor settles its order |
| LostPayments.PollSettlesUnlessMarked | src/services/paymentService.ts:233-251 | a poll settles a pending order if the transaction is not marked, and changes nothing if it is |
| Collection.AlwaysJointOk | src/container.ts:186-214 | in every joint run of shop and pipeline the deposit addresses agree and every job is for a settled order |
| Collection.CollectedWasSold | src/services/paymentService.ts:320-329 | every sweep job belongs to a settled USDT order and empties the address on which a confirmed transfer paid for it |
| Collection.SweptCameFromSale | src/services/sweepService.ts:166-182 | a swept job has moved its amount from that address to its collection address |
| Income.SoldIsReceived | src/services/paymentService.ts:258-304 | the stored transaction of a settled USDT order is a confirmed transfer of exactly its amount to the shared address, or of at least its amount to its own |
| Income.TransferTaken | src/providers/usdt/usdtTron.ts:54-93 | a poll takes exactly the confirmed transfers that pay for the order and are at most five minutes older than it |
| Income.ReceivedCoversSales | src/services/paymentService.ts:233-332 | in every run the amounts of all settled USDT orders together never exceed what confirmed transfers brought to the shop's own addresses |
| Stores.OrderRepository.Create | src/storage/memoryStore.ts:43-51 | stores and indexes an order, or refuses a repeated trade number and changes nothing |
| Stores.OrderRepository.Update | src/storage/memoryStore.ts:74-78 | replaces a known order and refuses an unknown one |
| Stores.OrderRepository.PendingUsdtAmounts | src/services/paymentService.ts:174-175 | the amounts of exactly the pending USDT orders |
| Stores.RefundRepository.Create | src/storage/memoryStore.ts:201-208 | stores and indexes a refund, or refuses a repeated refund number and changes nothing |
| Stores.SubscriptionRepository.Update | src/storage/memoryStore.ts:263-268 | an active record becomes the indexed one; an inactive one leaves the index only if it was |
| Stores.SubscriptionRepository.ListActive | src/storage/memoryStore.ts:270-272 | lists exactly the active records, each once |
| Stores.ProcessedEventStore.MarkIfNew | src/storage/memoryStore.ts:280-284 | true exactly for the first mark of an event |
| Stores.ProcessedEventStore.Sweep | src/storage/memoryStore.ts:286-296 | the deletion loop keeps exactly the marks within the retention period and counts the others |
| PaymentService.SubscriptionService.FulfillOrder | src/services/subscriptionService.ts:21-81 | extends the active subscription or starts one; refuses unknown plans; changes nothing for an order that already has access |
| PaymentService.QueryPayment | src/providers/usdt/usdtTron.ts:136-156 | reports a transfer of the chain that pays the order, and none only if no listed transfer does |
| PaymentService.PaymentService.ResolveAmount | src/services/paymentService.ts:165-177 | the amount due, and an error exactly when there is none |
| PaymentService.PaymentService.AssignAddress | src/services/paymentService.ts:124-131 | an order that needs one gets the address of the next index, recorded under its id; if it cannot be derived the index is used up |
| PaymentService.PaymentService.UnderivableIff | src/services/paymentService.ts:121-131 | only a USDT order in the mode with an address per order can fail for want of an address |
| PaymentService.PaymentService.CreateOrder | src/services/paymentService.ts:85-162 | replays find the earlier order; a request in order is one creation step with the one amount due, or uses up an address index; any other changes nothing; and the error in each case |
| PaymentService.PaymentService.ApplyPayment | src/services/paymentService.ts:258-332 | the critical section of a payment; what it accepts is `OrderBook.PaymentOutcome`, what it answers `AnswerSays` |
| PaymentService.PaymentService.AnswerSays | src/services/paymentService.ts:262-304 | success for an order that is settled now or was before, a provider error for a closed one, a mismatch for a payment that does not suffice |
| PaymentService.PaymentService.HandleCallback | src/services/paymentService.ts:183-227 | a callback is the mark and then the payment; it is asked for again exactly as `AsksAgainIff` says |
| PaymentService.PaymentService.AsksAgainIff | src/services/paymentService.ts:205-226 | a new callback is asked for again if and only if no order has its trade number, or that order is closed or its plan is gone; an underpaid one is acknowledged |
| PaymentService.PaymentService.CallbackOutcome | src/services/paymentService.ts:183-227 | a replayed callback changes nothing; a new one settles the order of its trade number exactly if that is pending and the payment suffices |
| PaymentService.PaymentService.SyncOrder | src/services/paymentService.ts:233-251 | a poll of a pending order is the mark and then the payment; otherwise nothing changes; and what the caller gets in each case |
| PaymentService.PaymentService.SyncUsdtOrder | src/services/paymentService.ts:233-251 | a poll over the listed transfers of the chain is a step that the protocol allows, and none is taken only if no listed transfer pays the order |
| PaymentService.PaymentService.PollOutcome | src/services/paymentService.ts:233-251 | a poll with a marked transaction changes nothing; with a new one it settles the order exactly if that is pending and the amount suffices |
| PaymentService.PaymentService.ExpireStaleOrders | src/services/paymentService.ts:335-353 | expires exactly the stale orders, one critical section at a time, and counts them |
| PaymentService.ExpireEachIsPass | src/services/paymentService.ts:335-353 | in whatever order the records come, a pass expires exactly the stale orders and changes nothing else |
| Deadlines.PassExpires | src/services/paymentService.ts:335-353 | a pass makes exactly the pending orders EXPIRED whose time is up |
| Deadlines.ExpiredIsOver | src/services/paymentService.ts:335-353 | in every run an EXPIRED order has run out of time |
| Deadlines.CountedByPasses | src/services/paymentService.ts:335-353 | what the passes count: stale orders, subscriptions that are over, and those that are due for a reminder |
| RefundService.RefundService.RefundOrder | src/services/refundService.ts:57-147 | replays return the earlier refund; a request in order is one refund step, which `RefundAnswers.RefundRecorded` describes; any other, and any that the provider throws on, is refused and changes nothing |
| RefundService.KnownIff | src/services/refundService.ts:58-62 | a number is a replay if and only if some refund has it |
| RefundService.RefundService.ReserveRefund | src/services/refundService.ts:214-221 | records the reserved total and completes the order, and throws and changes nothing exactly if it would complete an order that was never paid |
| RefundService.CanReserveIffLegal | src/services/refundService.ts:214-221 | a reservation is possible exactly if what it makes of the status is no illegal transition |
| RefundService.RefundService.HandleRefundCallback | src/services/refundService.ts:154-208 | a new result is the mark and then its resolution; a repeated one changes nothing; one that would complete an unpaid order throws after the refund has changed |
| RefundService.BalancedNeverStuck | src/services/refundService.ts:192-194 | in a balanced ledger no result throws |
| RefundService.StuckIff | src/services/refundService.ts:176-199 | a result throws exactly if it would complete an order that was never paid; the refund then has its result and the order is as it was |
| ExpiryService.RemindEachSends | src/services/expiryService.ts:28-54 | a pass sends one reminder for each listed subscription that is due, with its end, and no other |
| ExpiryService.DeactivateEachAt | src/services/expiryService.ts:57-77 | a pass makes exactly the listed subscriptions that are over inactive and keeps all else of each record |
| ExpiryService.RemindersAreIdempotent | src/services/expiryService.ts:14-54 | a second reminder pass at the same time sends nothing |
| ExpiryService.DeactivationIsIdempotent | src/services/expiryService.ts:14-77 | a second deactivation pass at the same time changes nothing |
| ExpiryService.ExpiryService.SendExpiryReminders | src/services/expiryService.ts:28-54 | one reminder step for each active subscription, sending and counting as many as were due, which is `Deadlines.DueIffEndsSoon`; it fails if and only if the notifier throws for one of them, and then before that record changes |
| ExpiryService.ExpiryService.DeactivateExpired | src/services/expiryService.ts:57-77 | one deactivation step and one notice for each subscription that is over, in order; it fails if and only if the notifier throws for one of them, and then after that record has changed |
| Deadlines.DueIffEndsSoon | src/services/expiryService.ts:34-39 | a subscription is due exactly if it is active, ends within the window and has no reminder noted |
| Deadlines.ReminderNoted | src/services/expiryService.ts:41-50 | a reminder is noted at the present time, and nothing else changes |
| Deadlines.RemindersComeInTime | src/services/expiryService.ts:28-54 | in every run each reminder was sent at a time t with t < end <= t + window |
| Deadlines.PassLeavesNoneOver | src/services/expiryService.ts:57-77 | after a pass exactly the active subscriptions that have not ended are active |
| Deadlines.InactiveIsOver | src/services/expiryService.ts:57-77 | in every run a subscription that is not active has ended |
| Notices.NotifyEachIsPass | src/services/expiryService.ts:57-77 | a pass of the service is a sequence of turns, each of which deactivates and then notifies |
| Notices.AlwaysAccounted | src/services/expiryService.ts:57-77 | in every run a subscription is inactive exactly if its notice has been sent once or has failed |
| Notices.LostIffItThrows | src/services/expiryService.ts:63-72 | a notice is lost exactly if the notifier throws when the subscription's turn comes |
| Notices.FailedNoticeIsLost | src/services/expiryService.ts:59-72 | in every later state the subscription is inactive, no pass at any time finds it, and its notice has not been sent |
| Notices.NoticeGetsLost | src/services/expiryService.ts:57-77 | a run from the empty store in which that happens |
| Notices.DueUntilReminded | src/services/expiryService.ts:34-49 | in every reachable state a subscription that ends soon is due for its reminder unless one has been sent for this end |
| Notices.FailedReminderStaysDue | src/services/expiryService.ts:41-50 | after a pass that failed at a reminder it is still due, and the next pass sends it |
| Reconciliation.ReservedByOrder | src/services/reconciliationService.ts:56-61 | the map loop adds up each order's refunds that have not failed |
| Reconciliation.CheckOrder | src/services/reconciliationService.ts:86-108 | lists exactly the discrepancies of one order, each once |
| Reconciliation.Audit | src/services/reconciliationService.ts:51-66 | lists exactly the discrepancies of all orders, each once |
| Reconciliation.CleanIffSound | src/services/reconciliationService.ts:86-108 | an order has no discrepancy if and only if its books are sound, for arbitrary stores |
| Reconciliation.ReconciliationService.Run | src/services/reconciliationService.ts:51-84 | the report of the state before healing; healing expires the stale orders and counts them |
| Reconciliation.OnlyStaleIsReported | src/services/reconciliationService.ts:86-108 | in every reachable state the audit reports the stale orders and nothing else |
| Reconciliation.HealedIsClean | src/services/reconciliationService.ts:68-71 | after a healing run a second run at the same clock value reports nothing |
| Sweep.AllocationNeverCollides | src/services/addressAllocator.ts:21-29 | a new address is never taken, so saving it succeeds |
| Sweep.AlwaysSweepOk | src/services/sweepService.ts:56-210 | in every run, with throws and retries, each SWEEPING or SWEPT job is backed by its transfer |
| Sweep.SweptIsConfirmed | src/services/sweepService.ts:166-182 | a SWEPT job's transaction is a confirmed transfer of exactly its amount from its own deposit address to its collection address |
| Sweep.DepositsDiffer | src/services/addressAllocator.ts:21-29 | no two jobs share a deposit address |
| Sweep.SweptNeverExceedsArrived | src/services/sweepService.ts:56-210 | what the SWEPT jobs of a collection address add up to never exceeds what arrived there |
| Sweep.LiveJobsHaveAttempts | src/services/sweepService.ts:213-228 | with maxAttempts of at least 1 a job that is not terminal has attempts left |
| Sweep.StepUsesUp | src/services/sweepService.ts:103-228 | each step that is not a confirmation wait uses up at least one of at most 3·maxAttempts steps |
| Sweep.WorkIsBounded | src/services/sweepService.ts:103-228 | between operator retries a job takes at most 3·maxAttempts steps that are not waits |
| Sweep.BoundIsReached | src/services/sweepService.ts:103-228 | for every policy that fuels gas there is a run in which a job that is not requeued takes exactly that many |
| Sweep.BacksOff | src/services/sweepService.ts:185-228 | a job that is still live after a step is not due before the backoff has passed, which grows with each error |
| SweepSteps.StepSends | src/services/sweepService.ts:130-163 | a step sends at most one transaction: gas to a deposit that is worth collecting and short of TRX, or the USDT transfer, of what was observed, or of the job's amount once its gas is confirmed |
| SweepSteps.NextStatus | src/services/sweepService.ts:130-182 | where each step that returns leads: EMPTY below the minimum, GAS_FUELING without gas, SWEEPING with it, SWEPT once confirmed and audited |
| SweepSteps.ThrowingCosts | src/services/sweepService.ts:213-228 | a step that throws costs one attempt, and the last one makes the job FAILED |
| SweepSteps.ReturningForgets | src/services/sweepService.ts:185-203 | moving on resets the attempts, and waiting keeps them |
| SweepSteps.DueAgain | src/services/sweepService.ts:185-228 | exactly when a live job is due again |
| SweepSteps.TerminalIsIdle | src/domain/deposit.ts:32-50 | a job is terminal if and only if no step would change it |
| SweepSteps.DepositGiven | src/services/addressAllocator.ts:21-29 | an order without a deposit takes the next index and gets its address, unless deriving that throws |
| SweepSteps.EnqueuedIsDue | src/services/sweepService.ts:56-80 | a new job is for its deposit, knows of no transaction and is due at once |
| SweepSteps.RequeuedIsDue | src/services/sweepService.ts:87-101 | a retry makes exactly a FAILED job PENDING and due at once, with all attempts |
| SweepSteps.AlwaysRecorded | src/services/sweepService.ts:130-182 | in every run the gas that a job waits for is on the chain, as TRX of the set amount for its own deposit address; and only deposits worth collecting are fuelled or swept |
| SweepSteps.IndexesInRange | src/services/addressAllocator.ts:21-29 | in every run each deposit address is derived from an index above the first one and up to the counter |
| SweepService.DepositAddressRepository.Save | src/storage/memoryStore.ts:332-342 | stores a deposit under its order and its address, or refuses a repetition of either |
| SweepService.SweepJobRepository.Due | src/storage/memoryStore.ts:384-390 | the oldest due jobs, oldest first, at most `limit`; any that are missing are no older |
| SweepService.DueListIsComplete | src/storage/memoryStore.ts:384-390 | a list with room left has every job that is not finished and whose time has come |
| SweepService.OldestAreFirst | src/storage/memoryStore.ts:384-390 | no job comes before an older one, and jobs have to wait only for want of room and behind older ones |
| SweepService.AddressAllocator.Allocate | src/services/addressAllocator.ts:21-29 | the existing deposit of the order, or one with a new index |
| SweepService.SweepService.Enqueue | src/services/sweepService.ts:56-80 | queues the deposit of an order once and returns its job |
| SweepService.SweepService.Retry | src/services/sweepService.ts:87-101 | requeues exactly failed jobs |
| SweepService.SweepService.ProcessDue | src/services/sweepService.ts:103-114 | takes one step of each due job, in order |
| SweepService.SweepService.ProcessOne | src/services/sweepService.ts:103-114 | one step with its error handler, on the job and on the chain, as `SweepSteps` describes it |
| RateLimiter.RateLimiter.Check | src/api/rateLimiter.ts:38-55 | counts a request into its window and decides |
| RateLimiter.RateLimiter.Sweep | src/api/rateLimiter.ts:58-63 | the deletion loop keeps exactly the windows that have not expired |
| RateLimiter.SweepsChangeNoDecision | src/api/rateLimiter.ts:38-63 | sweeps at any times leave every decision unchanged |
| RateLimiter.AtMostTwoWindows | src/api/rateLimiter.ts:38-55 | an interval of one window length has at most 2·max − 1 allowed requests of a key, and at most max if it is one millisecond |
| RateLimiter.BoundIsReached | src/api/rateLimiter.ts:38-55 | for every limiter a trace that has that many |
| RateLimiter.OpensWindow | src/api/rateLimiter.ts:38-49 | the first request after a window opens one of the full length |
| RateLimiter.SweepDropsEnded | src/api/rateLimiter.ts:58-63 | a sweep drops exactly the windows whose end has come |
| RateLimiter.AdviceIs | src/api/rateLimiter.ts:45-54 | the decision names the limit and advises the least whole seconds until the reset, at least one |
| RateLimiter.RemainingIsExact | src/api/rateLimiter.ts:45-52 | while the window lasts, the next request is allowed if and only if some were remaining, and leaves one less |
| RateLimiter.RetryAfterIsExact | src/api/rateLimiter.ts:53 | waiting the advised seconds is enough, and after fewer whole seconds a denied key is still denied |
| RedisRateLimiter.Check | src/api/redisRateLimiter.ts:47-73 | counts a request into its bucket and decides, with the counter's expiry as the reset time and the seconds until then as the advice |
| RedisRateLimiter.RetryAfterSuffices | src/api/redisRateLimiter.ts:64-72 | waiting the advised seconds leads to a new bucket |
| RedisRateLimiter.AdviceIs | src/api/redisRateLimiter.ts:71 | the advice is the least whole seconds until the reset, at least one |
| RedisRateLimiter.GoneAtExpiry | src/api/redisRateLimiter.ts:51-62 | a counter is gone from its expiry time on |
| RedisRateLimiter.NeverExpiresWhileCurrent | src/api/redisRateLimiter.ts:47-62 | a counter is never dropped while its bucket is current |
| RedisRateLimiter.AtMostTwoBuckets | src/api/redisRateLimiter.ts:47-73 | an interval of one window length has at most 2·max allowed requests of a key, and at most max if it is one millisecond |
| RedisRateLimiter.BoundIsReached | src/api/redisRateLimiter.ts:47-73 | for every limiter a trace that has that many |
| Money.NumeralParses | src/core/money.ts:10-32 | a numeral parses to its amount, unless it is too precise or too large |
| Money.AcceptsExactNumerals | src/core/money.ts:14-31 | exactly the numerals that are precise and small enough are accepted, whatever white space surrounds them |
| Money.TrimTakesOff | src/core/money.ts:12 | trimming takes off all the white space around a text and nothing else |
| Money.SpaceCodes | src/core/money.ts:12 | the code points that count as white space |
| Money.UnitScale | src/core/money.ts:26-30 | a yuan is a hundred fen, a USDT a million micro units, and the bound has 53 bits |
| Money.ParsePrinted | src/core/money.ts:10-45 | parsing a printed amount returns it, for every amount up to the safe-integer bound |
| Money.PrintParsed | src/core/money.ts:10-45 | printing a parsed string gives its canonical form |
| Money.SameAmountIffSameCanonical | src/core/money.ts:10-32 | two strings parse to the same amount if and only if their canonical forms agree |
| Money.ParsedValueIsExact | src/core/money.ts:10-32 | the parsed amount is the exact decimal value, without rounding |
| Csv.ToCsv | src/reporting/csv.ts:41-48 | the printed table parses back to exactly its header and cells |
| Csv.ParsePrinted | src/reporting/csv.ts:25-48 | a parser for section 2 of RFC 4180 recovers every table with at least one column |
| Csv.PrintInjective | src/reporting/csv.ts:25-48 | different tables print differently |
| Csv.QuotedIfNeeded | src/reporting/csv.ts:25-31 | a cell is quoted exactly if it has a comma, a quote, a CR or an LF |
| Csv.RecordsAre | src/reporting/csv.ts:41-47 | the header, then the rows in order with their cells in column order, empty where missing |
| Csv.PrintEnds | src/reporting/csv.ts:48 | every line ends in CRLF, the last one too |
| Csv.NoColumns | src/reporting/csv.ts:41-48 | a table without columns is not recovered |

## Left out

- QrMatrix.WriteFormat: the bits are inputs, and so their check bits are not computed; the code orders them differently from section 7.9 of ISO/IEC 18004:2015 and overwrites the dark module, so conformance is not claimed.
- QrMatrix.WriteVersion: the bits are inputs here as well.
- QrMatrix.FunctionLayout: reserves the cells; the colours of finder, timing and alignment patterns are arbitrary inputs, since the decoder skips them.
- QrMatrix.EncodeToMatrix: takes any mask; penalty scoring only chooses among valid masks, and the round trip holds for each.
- UTF-8: texts are sequences of bytes or digits.
- Money.ParsePrinted: covers string input; number input goes through floating-point formatting.
- Csv.ToCsv: takes cells that are already rendered as strings.
- Sweep.SweptIsConfirmed: trusts the treasury's confirmations, as said above; several sweep workers on one job are not modelled.
- PaymentService.PaymentService.AssignAddress: an allocator is always configured.
- PaymentService.PaymentService.CreateOrder: the payment intent returned to the buyer is not modelled; enqueuing the sweep after settlement is a step of its own, in `Collection`.
- ExpiryService.ExpiryService.SendExpiryReminders: reminders are the notifier calls that return; whether one that throws has reached the user is not modelled.
- SweepService.SweepJobRepository.Due: leaves the order of equally old jobs open; iteration over stored records happens in any order, where the code uses insertion order.
- Fields that only serve display or logging: reasons, merchant ids, last errors, update times, traffic and device limits.
- Crashes between two writes of one critical section, and the SQL and Redis stores.
- Signatures, encryption, key derivation and the HTTP clients of providers: their results are arbitrary inputs.
- Pricing and exchange rates in floating point.
- Router, metrics, email, alerts, configuration, audit log, webhooks, user and merchant services: plumbing that would only add easy members.
