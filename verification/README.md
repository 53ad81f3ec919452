# Marketplace: a verified model

A Dafny 4.11 model of a marketplace that never holds its customers' money. It
covers the money path over a double-entry journal, the protocols that keep it
right under concurrency, the decoder that reads provenance manifests out of
uploaded files, and the published ranking formula.
`dafny verify dfyconfig.toml` checks all of it.

## How it is laid out

- `Money`, `Tax`: integer minor units with the code's own int64 wrap-around and
  rounding; the split of one sale into its destinations.
- `Ledger`: entries, validation, posting by idempotency key.
- `Orders`: the tables and the effect of every committed unit of work on them,
  as functions from tables to tables or an error, and whole runs of them.
- `TaxRules`, `Sales`, `Operations`, `ReleasePass`: the same decomposition, checkout,
  capture, refund, release, loss, moves and settlement pass written out a second time,
  on what goes in and what comes out, without the functions that compute them, and
  `Refusals` the errors.
  `SmallSale` is the sale the witness runs use.
- `Postings`, `Refunds`, `Settlements`, `Chargebacks`: what each entry does to
  each account, and when the journal accepts it.
- `Books`: what tables and journal must agree on. `Steps`, `Captures`,
  `RefundSteps`, `ReleaseSteps`, `LossSteps`: each operation keeps it. `Runs`,
  `Outcomes`, `Effects`, `Histories`, `Recoveries`, `ProviderRefunds`,
  `Overdrafts`, `OverdraftRuns`: what follows.
- `Service`: the operations as the program runs them, a class whose methods
  update tables row by row inside a transaction, each tied to its function in
  `Orders`.
- `Transactions`, `PostRace`, `PostSolo`, `CaptureRace`, `RefundRace`, `Webhooks`,
  `Outbox`, `QueueRules`, `Assets`: protocols as step relations over arbitrary
  interleavings, and what each step does.
- `Cbor`, `Codec`, `Encoder`, `Floats`, `Claim`, `Containers`, `Layouts`: RFC 8949
  sections 3 and 4.2.1, the Sig_structure of RFC 9052 section 4.4, claim comparison
  and the walks over JPEG and PNG files.
- `Ranking`: exposure decay and the canonical order.

A unit of work that fails is rolled back, so `Orders.Apply` returns new tables or
an error. `Runs` folds it over any list of operations with any parameters; the one
hypothesis, `Orders.Sensible`, says that checkout is given list prices that fit in
64 bits and processing rates that are not negative. Statuses, their allowed
transitions (db/migrations/0006_orders_payments.sql:82-109) and the range of
stored amounts (db/migrations/0001_infrastructure.sql:24-25) are the database's.

## Where the code does not do what is said of it

Each of these is kept as the code has it, with lemmas that show it or say exactly
when it happens.

- A guard against a wrapped turnover total lets a wrapped sum of two valid amounts
  read as below the threshold (`Tax.WrappedTurnoverReadsAsBelow`). It is exact exactly when
  the sum fits (`Tax.BelowThresholdIsExactIff`), so with prices the database can hold
  this takes a threshold near 2^63.
- Half-up rounding doubles a remainder in 64 bits, so it rounds wrongly for divisors
  above 2^62, and for the least divisor it moves every inexact quotient
  (`Money.HalfUpCanRoundDown`, `Money.HalfUpIsNearestIff`).
- The Go balance check compares wrapped sums; alone it would accept an unbalanced
  entry (`Ledger.ValidateAloneAdmitsAnUnbalancedEntry`, `Ledger.ValidateAcceptsIff`).
  The database trigger is what makes posting exact.
- With the seller bearing processing cost, no capture can be posted
  (`Postings.CaptureAcceptedIff`).
- The key of a recovery holds only the recovery and the amount, so two equal partial
  recoveries collide (`Settlements.EqualPartialRecoveriesCollide`): what goes unposted
  is exactly the shares whose keys were used (`Settlements.ReplaysExactly`), and the
  receivable is exact exactly without one as long as no dispute is lost again
  (`Recoveries.ReceivableIsExactIff`).
- A dispute lost again writes its recoveries a second time and posts nothing: they go
  unposted exactly when the order has a net already paid out (`Recoveries.GapIff`).
- A refund of a disputed order passes the first guard and is then always rolled
  back, after the provider was asked for it (`Outcomes.RefundSucceedsIff`).
- The provider's key of a refund holds only the item and the amount, so with a provider
  that honours it the second of two equal partial refunds is always refused, however
  much of the item is left (`ProviderRefunds.EqualRefundIsRefusedIff`,
  `ProviderRefunds.EqualRefundsNeverBoth`).
- The column of the reserve rate admits more than 100%; a release then withholds more
  than the transfer (`Outcomes.ReleaseIsExactIff`, `Outcomes.ReleaseSplitsTheTransfer`).
- The health check expects no negative payable. Among other things these make one: a
  chargeback lost after a refund (`OverdraftRuns.LossAfterRefundOverdraws`), a refund
  after a chargeback was lost on an order not marked disputed
  (`OverdraftRuns.RefundAfterLossOverdraws`) and a second dispute lost on one payment
  (`OverdraftRuns.SecondDisputeOverdraws`) each take the net again; the shares of partial
  refunds, each rounded half up, can exceed it (`OverdraftRuns.RoundedRefundsOverdraw`);
  and so can a reserve (`OverdraftRuns.ReserveAboveAllOverdraws`). A covered seller stays
  covered exactly when the payable holds what the refund, the release or the loss takes,
  all known beforehand
  (`Overdrafts.RefundKeepsCoverIff`, `Overdrafts.ReleaseKeepsCoverIff`,
  `Overdrafts.LossKeepsCoverIff`); nothing else lowers it (`Overdrafts.OthersKeepCover`);
  and it is never negative in a run exactly when no operation took more than was there
  (`Overdrafts.PayableIsCoveredIff`).
- A webhook whose payment was captured is acknowledged and not recorded unless the order
  is awaiting payment when it loads it: after the order expired or was cancelled, and
  also between a failed attempt, which moves it to payment_failed
  (internal/modules/orders/webhook.go:297-305), and the next one
  (`CaptureRace.LatePaymentIsDropped`, `CaptureRace.LoadDropsIff`,
  `CaptureRace.PaymentIsDroppedIff`).
- Refunds of several items at once can leave the order's own total behind its items, and
  then it is never marked refunded (`RefundRace.OneTotalIsLost`): exactly when one refund
  committed while another was between its load and its commit
  (`RefundRace.OrderTotalIsExactIff`, `RefundRace.RefundedStatusIff`).
- A processed event can be applied again. A delivery with altered bytes, or a failing
  application of one let in earlier, takes its mark away (`Webhooks.MarkIsLostIff`,
  `Webhooks.MismatchReopens`), and two deliveries of the same bytes claimed before either
  is done are both applied (`Webhooks.TwoInFlightApplyTwice`). Retries of its own bytes
  can apply it again exactly when a delivery is in flight or the mark is gone
  (`Webhooks.RetriesCanApplyIff`); over a run it is applied again exactly when deliveries
  in flight or let in outnumber those pending or lost (`Webhooks.AppliedAgainIff`).
- Replaying a dead letter can leave it behind newer messages of its key
  (`Outbox.ReplayBreaksOrder`): exactly when one of those was ever claimed
  (`Outbox.ReplayKeepsOrderIff`, `Outbox.OrderHoldsIff`). The row does not remember it,
  for a replay clears its attempts (`Outbox.ForgottenClaimBreaksOrder`).
- The quarantine object is copied by name, so an overwrite after the scan delivers bytes
  nobody judged (`Assets.OverwriteDefeatsTheScan`): exactly when a copy no longer finds
  the recorded, judged bytes (`Assets.DeliversIff`).
- Claim comparison is not symmetric on maps with a repeated key
  (`Claim.RepeatedKeysBreakSymmetry`): it can be turned round exactly when the second
  claim compares the same as itself and its keys are all in the first
  (`Claim.TurnsRoundIff`, `Claim.TextMapsTurnRoundIff`).
- The comment on findJPEGManifest (internal/modules/provenance/c2pa.go:590-596) wants
  segments put together by box instance and packet sequence; the code joins them in file
  order (`Containers.FileOrderIsNotReassembly`), which takes the same segments in the same
  order exactly when they carry one instance and ascend (`Containers.FileOrderIsReassemblyIff`).
- docs/arch/04-money-flow.md:180-183 posts a chargeback after release wholly as a
  loss; the code debits the seller's share to the receivable
  (`Chargebacks.LossMoves`).

## Model

| member | source | states |
|---|---|---|
| Money.HalfUpIsNearestIff | internal/platform/money/money.go:452-506 | for amounts, numerators and divisors of any sign, the half-up branch returns the mathematically nearest integer exactly when the doubled remainder fits in int64, and for the least divisor exactly when it does not |
| Money.HalfUpCanRoundDown | internal/platform/money/money.go:452-506 | an amount on which the wrapped doubling rounds the wrong way |
| Money.HalfEvenIsNearestIff | internal/platform/money/money.go:452-506 | half-even rounding takes the nearest integer, and the even one of two, under exactly the same condition |
| Money.DownAndUp | internal/platform/money/money.go:452-506 | rounding down drops the fraction and rounding up moves away from zero whenever there is one, for any signs |
| Money.HalfUpIsFloor | internal/platform/money/money.go:213-216 | a rate of basis points applied half up is the amount times the rate plus half a unit, divided and rounded down, and fails exactly when that leaves 64 bits |
| Money.RatioIsRefused | internal/platform/money/money.go:418-450 | what is refused: a zero divisor, and a quotient outside 64 bits, by sign |
| Money.HalfUpRatio | internal/platform/money/money.go:199-215 | a half-up share is within half a unit of the exact one, never negative, and never above the whole |
| Money.DownRatio | internal/platform/money/money.go:199-215 | rounding down stays at or below the exact share and within one unit of it |
| Tax.Compute | internal/modules/tax/tax.go:217-425 | the decomposition, deduction by deduction, equals its specification on every policy, seller, buyer and sale |
| TaxRules.ComputeIs | internal/modules/tax/tax.go:217-512 | from the facts of policy, seller, buyer and sale alone: which input is refused with which error, and otherwise every figure. GST is two equal halves for a registered seller and a domestic buyer in one known state, one integrated line for a registered seller and another domestic buyer, nothing for the rest; TDS and TCS by residency, PAN, turnover, registration and place of supply |
| TaxRules.LocalExample | internal/modules/tax/tax.go:254-264 | a sale within one state: the same tax in two halves, and TCS likewise |
| TaxRules.UntaxedExamples | internal/modules/tax/tax.go:481-499 | an export and a sale by an unregistered seller carry no tax, with their TCS and TDS |
| Tax.VerifyNeverFails | internal/modules/tax/tax.go:429-479 | the self-check follows from the construction under every policy: nothing that reaches it is refused, and the destinations sum to the payment |
| Tax.DefaultPolicyNeverOverdraws | internal/modules/tax/tax.go:217-425 | with the default policy and at most 30% commission, deductions never exceed the payment despite rounding; it succeeds exactly when the buyer's total fits in int64 |
| Tax.EveryLineIsItsRate | internal/modules/tax/tax.go:217-425 | every line is its own rate of its own base to the nearest unit: commission on the list price, its GST on the commission, GST and TCS by place of supply, the fee on the buyer's total; the seller gets the rest |
| Tax.WorkedExample | docs/arch/04-money-flow.md:18-33 | the documented sale goes through and comes out to the paise |
| Tax.BelowThresholdIsExactIff | internal/modules/tax/tax.go:501-511 | the guarded comparison is right exactly when the sum does not wrap |
| Tax.WrappedTurnoverReadsAsBelow | internal/modules/tax/tax.go:501-511 | at the largest threshold, one more unit wraps and reads as below |
| Ledger.Validate | internal/modules/ledger/ledger.go:96-134 | the accumulating loop decides the same as its specification, error by error |
| Ledger.ValidateAcceptsIff | internal/modules/ledger/ledger.go:96-134 | an entry passes exactly when it has two lines, all positive and of its currency, and its sides agree modulo 2^64 |
| Ledger.ValidateAloneAdmitsAnUnbalancedEntry | internal/modules/ledger/ledger.go:110-132 | four lines the Go check accepts although they do not balance |
| Ledger.ValidateIsExactForStorableLines | db/migrations/0004_ledger.sql:158-207 | for storable amounts the Go check and the database rule agree |
| Ledger.Journal.Post | internal/modules/ledger/ledger.go:171-242 | a posting is refused, replayed under its key, or appended whole; the returned entry carries the key |
| Ledger.PostIs | internal/modules/ledger/ledger.go:96-242 | a posting in full, on the lines and keys themselves: which fault of which line refuses it, then unequal sides modulo 2^64, then a key found, then what the database refuses, otherwise appended |
| Ledger.PostKeepsSound | internal/modules/ledger/ledger.go:171-242 | posting keeps keys unique and entries balanced, only appends, and is idempotent by key |
| Ledger.TrialBalances | internal/modules/ledger/ledger.go:301-335 | in every sound journal debits equal credits in every currency |
| Ledger.EveryPostingRunBalances | internal/modules/ledger/ledger.go:322-335 | so does every sequence of postings from an empty journal |
| Ledger.NothingAcceptedIsLost | internal/modules/ledger/ledger.go:171-242 | and every acceptable entry of it is in the journal under its key, whole unless the key was used before |
| Postings.PartsConserve | internal/modules/orders/confirm.go:283-322 | the five destinations of an order, with cost borne by sellers, sum to what the buyers paid |
| Postings.CaptureEntryShape | internal/modules/orders/confirm.go:283-345 | the capture entry debits the grand total and credits each account exactly its part |
| Postings.CaptureAcceptedIff | internal/modules/orders/confirm.go:260-345 | it is accepted exactly for a positive total with no cost borne by a seller |
| Postings.FeeAcceptedIff | internal/modules/orders/confirm.go:347-405 | the fee entry is accepted exactly for fees that are not negative and not both zero, and what it does to each account |
| Refunds.ShareIsNearest | internal/modules/orders/refund.go:483-491 | every component's share of a refund is the nearest integer to its proportion, and the whole component for a full refund |
| Refunds.ResidueIsSmall | internal/modules/orders/refund.go:397-425 | the rounding residue is at most two minor units either way and none for a full refund |
| Refunds.RefundEntryAccepted | internal/modules/orders/refund.go:335-441 | the refund entry balances with at least two positive lines for every amount from 1 to the buyer's total, with its effect on each account |
| Refunds.FullRefundUndoesCapture | internal/modules/orders/refund.go:335-441 | refunding every line in full before settlement reverses the capture on every account |
| Refunds.DriftAfterRefunds | internal/modules/orders/refund.go:483-491 | after k refunds a component's reversal is within k/2 units of its exact proportion |
| Settlements.ApplyClosedForm | internal/modules/orders/settlement.go:298-348 | each recovery row gets its own share of what is available, oldest first, and nothing else changes |
| Settlements.ApplyTakesTheMinimum | internal/modules/orders/settlement.go:298-348 | in total exactly the smaller of what is available and what the seller owes is applied |
| Settlements.OldestFirst | internal/modules/orders/settlement.go:267-272 | a newer recovery is touched only once every older one of that seller is settled |
| Settlements.ReplaysExactly | internal/modules/orders/settlement.go:330-341 | what a netting leaves unposted is exactly the shares of the rows whose keys were used before |
| Settlements.ReplaysIff | internal/modules/orders/settlement.go:330-341 | so something goes unposted exactly when a row's share meets a key already used |
| Settlements.ApplyJournal | internal/modules/orders/settlement.go:330-341 | netting moves what it posts from the payable to the receivable and adds only keys of its own rows |
| Settlements.EqualPartialRecoveriesCollide | internal/modules/orders/settlement.go:334-334 | two equal partial recoveries of one row: the second is netted but never posted |
| Chargebacks.LossAcceptedIff | internal/modules/orders/webhook.go:500-575 | the loss entry is accepted for every positive storable amount, above or below what is recovered, and for no other |
| Chargebacks.LossMoves | internal/modules/orders/webhook.go:500-575 | it moves the amount out of clearing, the nets back from the sellers, settled ones through the receivable, and the difference into the platform's loss |
| Chargebacks.LossOffsetsMatch | internal/modules/orders/webhook.go:507-519 | the recovery rows written are owed exactly what the entry debits to the receivable |
| Steps.CheckoutBuildsAConservingOrder | internal/modules/orders/checkout.go:195-266 | every order the loop builds conserves line by line, its total is its prices plus its taxes, and nothing is captured |
| Sales.CheckoutStoresTheCart | internal/modules/orders/checkout.go:195-266 | a checkout adds one draft order with an item for every line in turn: that line's seller, the decomposition of that line's seller and sale, pending, without refund, licence or transfer; nothing else changes |
| Sales.CheckoutSucceedsIff | internal/modules/orders/checkout.go:118-266 | exactly when it goes through: one to fifty lines, each of which can be decomposed, and a total that can be stored |
| Refusals.CheckoutStopsAt | internal/modules/orders/checkout.go:195-250 | the first line that cannot be decomposed, or takes the running total out of 64 bits, decides the error of the cart |
| Refusals.CartIsRefused | internal/modules/orders/checkout.go:118-126 | the errors of a cart without lines, with too many, or of a total its column cannot hold |
| Steps.CheckoutKeepsInv | internal/modules/orders/checkout.go:118-300 | checkout keeps the books |
| Steps.MoveKeepsInv | internal/modules/orders/checkout.go:595-630 | so does every status move that is neither a capture nor a refund |
| Steps.DisputeOpenedKeepsInv | internal/modules/orders/webhook.go:384-416 | so does an opened dispute, which freezes open transfers |
| Steps.TransferEventKeepsInv | internal/modules/orders/webhook.go:329-349 | so do the provider's transfer events, which post nothing |
| Captures.RecordCaptureKeepsInv | internal/modules/orders/confirm.go:125-242 | recording a capture keeps the books: one new entry, one licence an item, nets credited |
| Captures.ConfirmKeepsInv | internal/modules/orders/confirm.go:68-121 | confirming does, by callback or webhook |
| Sales.CaptureMoves | internal/modules/orders/confirm.go:260-405 | what a recorded payment does to every account, key and row: clearing holds the total less cost and its tax, the expense is the reported cost or the half-up share of the total, the input credit the reported tax or the half-up share of that cost, every part of the decomposition is credited, and there is a cost entry exactly when cost and tax are not both zero |
| Sales.ConfirmSucceedsWhen | internal/modules/orders/confirm.go:68-121 | exactly when a payment of an awaiting order is recorded, by the amounts reported or estimated |
| Sales.SaleCreditsItsSellers | internal/modules/orders/confirm.go:283-322 | after checkout, start of payment and capture every seller's payable has gained exactly the nets of the lines whose catalogue seller it is |
| Sales.TwoSellersAreBothPaid | internal/modules/orders/confirm.go:294-300 | a sale of two sellers' lines, from empty tables: it goes through and each is credited with the own net |
| RefundSteps.RefundKeepsInv | internal/modules/orders/refund.go:47-249 | a refund keeps the books, settled or not |
| RefundSteps.RefundStatusIs | internal/modules/orders/refund.go:450-480 | the two transitions go through exactly when the order is not disputed, and where they lead |
| ReleaseSteps.ReleaseKeepsInv | internal/modules/orders/settlement.go:141-254 | a release keeps the books at any reserve rate |
| LossSteps.DisputeLostKeepsInv | internal/modules/orders/webhook.go:430-447 | a lost dispute keeps the books, also when repeated |
| Runs.EveryRunKeepsTheBooks | internal/api/handlers_verify.go:71-142 | tables and journal agree after every run of any operations |
| Runs.ReceivableIsWhatIsOutstanding | internal/modules/orders/settlement.go:302-348 | the receivable is what recovery rows are owed plus unposted nettings less repeated losses, in every run |
| Runs.PayableIsWhatIsOwed | internal/modules/orders/settlement.go:141-254 | a seller's payable is captured nets less releases, unsettled refund shares and unsettled losses, and the reserve what was withheld |
| Runs.CapturedExactlyOnce | internal/api/handlers_verify.go:71-113 | an order is in a post-capture status exactly when it has its one capture entry, for its grand total, and each item its one licence |
| Runs.RefundedExactlyWhenEveryItemIs | internal/modules/orders/refund.go:450-480 | no item is refunded beyond its price; a captured order is refunded exactly when every item is |
| Runs.RefundDriftInEveryRun | internal/modules/orders/refund.go:335-441 | in every run, k refunds of an item took back each of its components within k/2 units of proportion |
| Runs.ReleasedAtMostOnce | internal/modules/orders/settlement.go:143-152 | no transfer is released twice and every release accounts for the whole net |
| Runs.EveryRunBalances | internal/modules/ledger/ledger.go:322-335 | debits equal credits after every run |
| Outcomes.ConfirmSucceedsIff | internal/modules/orders/confirm.go:68-121 | exactly when a payment is recorded, the checks on its own row included |
| Operations.StatusesMoveAlongEdges | db/migrations/0006_orders_payments.sql:82-109 | where each operation that goes through may take its order's status, from where, and that it leaves every other order's alone |
| Operations.MovesAre | internal/modules/orders/checkout.go:595-630 | exactly when the plain moves go through |
| Operations.MovesChangeOneStatus | internal/modules/orders/checkout.go:595-630 | a plain move changes the status of its order and nothing else |
| Operations.ConfirmGuards | internal/modules/orders/confirm.go:78-110 | a second payment changes nothing, one out of turn or of another amount is refused |
| Operations.OrdersRest | db/migrations/0006_orders_payments.sql:82-109 | over every run no order is left merely paid, with a refund pending, or cancelled: those are passed through in one unit of work, or not reached |
| Outcomes.RefundSucceedsIff | internal/modules/orders/refund.go:47-249 | exactly when a refund goes through, the provider's answer and the uniqueness of its id included; a disputed order's never does |
| Operations.RefundIs | internal/modules/orders/refund.go:47-249 | a refund written out: the item, the order's total and status, licence, transfer, its own row, what a paid seller owes, and the movement of every account by half-up proportions |
| Operations.RefundSucceedsWhen | internal/modules/orders/refund.go:75-158 | exactly when it goes through, by status, eligibility, payment on record, amount and the provider's answer |
| Refusals.RefundIsRefused | internal/modules/orders/refund.go:47-158 | which error a refund is refused with, test by test in the order of the code |
| Refusals.DisputedRefundIsRefused | internal/modules/orders/refund.go:450-480 | what would go through on a fulfilled order is refused on a disputed one, by the transition |
| Outcomes.ReleaseSplitsTheTransfer | internal/modules/orders/settlement.go:141-254 | at any reserve rate, a release splits the net into the reserve, the minimum recovery and the payout and debits the payable by exactly that, short only of recoveries whose keys were used; above 100% by the reserve alone |
| Operations.ReleaseIs | internal/modules/orders/settlement.go:141-254 | a release written out: its row with reserve, recoveries and payout, the part each recovery row takes, oldest first, and the movement of every account |
| Outcomes.ReleaseIsExactIff | internal/modules/orders/settlement.go:164-192 | at any reserve rate, a release debits the payable by exactly the transfer if and only if the reserve does not exceed it |
| Outcomes.ReleaseSucceedsIff | internal/modules/orders/settlement.go:141-254 | at any reserve rate, a release goes through exactly when the reserve can be stored and the provider does not refuse it |
| Outcomes.FirstLossSucceedsIff | internal/modules/orders/webhook.go:460-577 | exactly when a first loss is booked |
| Operations.LossIs | internal/modules/orders/webhook.go:460-577 | a lost dispute written out: transfers, statuses, recovery rows, and the movement of every account, none the second time |
| Operations.DisputeOpenedIs | internal/modules/orders/webhook.go:384-416 | exactly when an opened dispute is recorded and what it changes |
| Refusals.DisputeIsRefused | internal/modules/orders/webhook.go:384-400 | which error an opened dispute is refused with |
| Operations.DisputeWonIs | internal/modules/orders/webhook.go:418-428 | a won dispute puts a disputed order back to fulfilled and does nothing else |
| Operations.TransferEventIs | internal/modules/orders/webhook.go:329-349 | what the provider's transfer events change |
| Effects.CaptureEffects | internal/modules/orders/confirm.go:421-527 | after a payment the order is fulfilled, each item has an active licence, and each net waits in the queue, on hold exactly for sellers who are ready |
| Effects.RefundEffects | internal/modules/orders/refund.go:160-200 | a refund withdraws the licence and either records exactly the share for recovery or takes the transfer out of the queue; no other item changes |
| Effects.DisputeHoldsTransfers | internal/modules/orders/webhook.go:397-410 | an open dispute puts every open transfer of the order on hold and touches no other |
| Effects.LossEffects | internal/modules/orders/webhook.go:498-535 | after a lost dispute nothing of the order is left to pay out and what sellers received is owed back in full |
| Histories.NothingIsTakenBack | internal/modules/orders/settlement.go:149-152 | over every run the journal only grows, captures and licences stay, and a released transfer never reopens |
| Recoveries.GapIff | internal/modules/orders/settlement.go:330-341 | unposted nettings exist exactly when some release met a used key, and unposted recoveries exactly when a dispute was lost again on an order with a net already paid out |
| Recoveries.ReceivableIsExactIff | internal/modules/orders/settlement.go:302-348 | over every run, the receivable equals the outstanding total exactly when the two unposted amounts agree: with no such repeated loss, exactly when no release met a used key, and the other way round |
| ProviderRefunds.RefsAreDistinct | db/migrations/0006_orders_payments.sql:384 | in every run no two refunds hold the same id of the provider |
| ProviderRefunds.EqualRefundIsRefusedIff | internal/modules/orders/refund.go:132-158 | with a provider that honours keys, in every run a refund goes through exactly when its guards allow it and no refund of the same item and amount went through before |
| ProviderRefunds.EqualRefundsNeverBoth | internal/modules/payments/port.go:30-31 | so of two equal refunds of one item at most one is ever recorded |
| Overdrafts.EachStepTakes | internal/api/handlers_verify.go:114-120 | every operation changes each seller's payable by exactly what was known before it ran |
| Overdrafts.RefundKeepsCoverIff | internal/modules/orders/refund.go:335-360 | a refund leaves a covered seller covered exactly when the item is another's or settled, or the payable holds its share of the net |
| Overdrafts.ReleaseKeepsCoverIff | internal/modules/orders/settlement.go:164-240 | a release does exactly when the transfer is another's or out of the queue, or the payable holds what it takes |
| Overdrafts.LossKeepsCoverIff | internal/modules/orders/webhook.go:498-565 | a lost dispute does exactly when it is unknown or repeated, or the payable holds the unsettled nets of the order, refunded or not |
| Overdrafts.OthersKeepCover | internal/api/handlers_verify.go:114-120 | no other operation lowers any seller's payable |
| Overdrafts.PayableIsCoveredIff | internal/api/handlers_verify.go:114-120 | over every run the health check on a seller always passes exactly when no operation took more than was there |
| OverdraftRuns.LossAfterRefundOverdraws | internal/modules/orders/webhook.go:525-535 | a run of five operations in which a chargeback lost after a refund takes the net a second time |
| OverdraftRuns.RoundedRefundsOverdraw | internal/modules/orders/refund.go:483-491 | a run without any dispute in which two partial refunds take more than the net |
| OverdraftRuns.RefundAfterLossOverdraws | internal/modules/orders/refund.go:93-100 | a run in which a refund after a lost chargeback takes the net a second time |
| OverdraftRuns.SecondDisputeOverdraws | internal/modules/orders/webhook.go:525-535 | a run in which two disputes lost on one payment each take the net |
| OverdraftRuns.ReserveAboveAllOverdraws | internal/modules/orders/settlement.go:160-186 | a run in which a release withholds twice the transfer |
| Service.Service.Checkout | internal/modules/orders/checkout.go:118-300 | the row-by-row checkout commits exactly its specification or leaves no trace |
| Service.Service.PostCapture | internal/modules/orders/confirm.go:260-405 | both capture entries, built line by line, equal the specified ones |
| Service.CaptureLines | internal/modules/orders/confirm.go:283-330 | the lines accumulated in the loop are the specified entry; the checked totals cannot overflow |
| Service.Service.IssueAndRecord | internal/modules/orders/confirm.go:421-527 | each item ends with exactly its licence, its transfer and its status |
| Service.Service.RecordCapture | internal/modules/orders/confirm.go:125-242 | the whole post-payment write equals its specification |
| Service.Service.ConfirmPayment | internal/modules/orders/confirm.go:68-121 | confirms exactly as specified, or rolls back |
| Service.Service.Refund | internal/modules/orders/refund.go:47-249 | refunds exactly as specified, or rolls back |
| Service.RefundLines | internal/modules/orders/refund.go:335-441 | the growing lines are the specified refund entry, without overflow |
| Service.Service.LoseDispute | internal/modules/orders/webhook.go:356-454 | books a lost dispute exactly as specified, or rolls back |
| Service.Service.ReturnShares | internal/modules/orders/webhook.go:498-565 | the loop over items writes the specified rows, statuses and lines |
| Service.Service.ApplyOffsets | internal/modules/orders/settlement.go:258-350 | the netting loop equals its specification on rows, journal and amounts |
| Service.Service.ReleaseOne | internal/modules/orders/settlement.go:141-254 | releases exactly as specified, or rolls back |
| Service.Service.ReleaseDueSettlements | internal/modules/orders/settlement.go:36-139 | a pass is the releases of the undeferred rows in order, and its counters count exactly them |
| ReleasePass.RowOfThePass | internal/modules/orders/settlement.go:100-135 | by the row's own facts: a row is released or tried exactly when its order is not disputed, charged back, refunded or being refunded, no dispute is open, the seller is verified, the account activated and the seller neither suspended nor closed; otherwise no table changes |
| ReleasePass.CountersAre | internal/modules/orders/settlement.go:105-125 | each of the six reasons counts exactly the rows whose first failing fact it is, in the order dispute, refund, verification, account, block |
| ReleasePass.DeferredItemsAreUntouched | internal/modules/orders/settlement.go:100-125 | an item only rows on hold name is left as it was by the whole pass |
| Transactions.InTx | internal/platform/db/db.go:173-216 | the closure runs until the first answer that is not transient, at most six times, and its fate is that answer's |
| Transactions.RetriedIs | internal/platform/db/db.go:282-296 | exactly which failures are run again: two SQL states, and a unique violation of four constraints |
| Transactions.WaitsAre | internal/platform/db/db.go:200-215 | the wait before the k-th retry is 5 ms doubled k - 1 times, at most 500 ms |
| PostRace.ReachKeepsInv | internal/modules/ledger/ledger.go:171-242 | the posting protocol's invariant over every interleaving, abort and retry |
| PostRace.EveryInterleavingIsSound | internal/platform/db/db.go:263-294 | at most one entry per key is ever committed, whole and as requested, and the journal balances |
| PostRace.CommittedCallersAgree | internal/modules/ledger/ledger.go:179-190 | committed callers of one key hold the same entry id |
| PostRace.AtMostSixRuns | internal/platform/db/db.go:187-215 | no closure runs more than six times |
| PostSolo.LoneCallerPosts | internal/modules/ledger/ledger.go:171-242 | a caller nobody disturbs posts its entries to the committed journal exactly as the sequential journal does, one after the other, or leaves it alone when one is refused |
| PostSolo.DisturbancesAre | internal/platform/db/db.go:187-215 | an insert waits for an uncommitted key, and a committed one starts the unit of work again, at most five times |
| PostSolo.DoneStaysDone | internal/platform/db/db.go:187-216 | a caller that is done keeps its answer whatever the others do |
| CaptureRace.AtMostOneCaptureCommits | internal/modules/orders/confirm.go:170-178 | in every interleaving of callbacks and webhooks at most one capture commits and licences are written once, exactly when the order is post-capture |
| CaptureRace.LoadDropsIff | internal/modules/orders/webhook.go:216-218 | in every reachable state, a webhook is acknowledged with nothing recorded exactly when its load finds the order draft, failed, cancelled or expired |
| CaptureRace.PaymentIsDroppedIff | internal/modules/orders/webhook.go:216-218 | over every run, a webhook's payment ends acknowledged and unrecorded exactly when its load found the order not awaiting payment and nobody else recorded it |
| CaptureRace.LatePaymentIsDropped | internal/modules/orders/webhook.go:216-218 | it happens after expiry and after a failed attempt |
| CaptureRace.UndisturbedClientIs | internal/modules/orders/confirm.go:68-121 | a client nobody disturbs records its payment exactly when the order awaits one, and what it is told otherwise |
| CaptureRace.DisturbancesAre | internal/modules/orders/confirm.go:170-178 | who waits, who starts again and who is turned away |
| CaptureRace.DoneStaysDone | internal/platform/db/db.go:187-216 | so does a client that is done |
| RefundRace.NeverRefundedBeyondPaid | internal/modules/orders/refund.go:93-100 | under every interleaving an item's refunded total is the sum of its committed refunds and at most its price |
| RefundRace.OrderTotalIsExactIff | internal/modules/orders/refund.go:462-466 | over every run, the order's own total never runs ahead of its items and equals them exactly when no refund had another one commit between its load and its commit |
| RefundRace.RefundedStatusIff | internal/modules/orders/refund.go:462-480 | over every run, the order is marked refunded exactly when every item is refunded in full and no refund was overtaken |
| RefundRace.OneTotalIsLost | internal/modules/orders/refund.go:462-480 | a run of three refunds after which every item is refunded and the order is not |
| RefundRace.UndisturbedRefundIs | internal/modules/orders/refund.go:47-249 | a refund nobody disturbs commits exactly when status and amount allow it, and what it then writes |
| RefundRace.DisturbancesAre | internal/modules/orders/refund.go:450-480 | which statuses are refused at the load, who waits for which lock, and whom a moved order refuses |
| RefundRace.DoneStaysDone | internal/platform/db/db.go:187-216 | so does a refund that committed or was refused |
| Webhooks.NeverAltered | internal/modules/orders/webhook.go:83-107 | all applications of one event id carry the same bytes |
| Webhooks.ProcessedMeansApplied | internal/modules/orders/webhook.go:138-156 | a processed event was applied successfully |
| Webhooks.MarkIsLostIff | internal/modules/orders/webhook.go:83-113 | the processed mark is lost by exactly a delivery of other bytes or a failing application in flight, and gained by exactly a successful one |
| Webhooks.AppliedAgainIff | internal/modules/orders/webhook.go:83-156 | over every run from a reachable state, a processed event is applied again exactly when the deliveries in flight there and those let in since outnumber the ones still in flight and the ones lost before their handler ran; none is let in unless the mark was taken away |
| Webhooks.RetriesCanApplyIff | internal/modules/orders/webhook.go:108-113 | retries of the same bytes can apply an event again exactly when a delivery of it is in flight or it is not marked processed |
| Webhooks.ProcessedStaysProcessed | internal/modules/orders/webhook.go:108-112 | a processed event with no delivery in flight is not applied again as long as no delivery alters its bytes |
| Webhooks.TwoInFlightApplyTwice | internal/modules/orders/webhook.go:108-113 | two deliveries of the same bytes claimed before either is done are both applied |
| Webhooks.MismatchReopens | internal/modules/orders/webhook.go:92-96 | one altered delivery makes the next retry apply twice |
| Webhooks.DeliveryIs | internal/modules/orders/webhook.go:83-113 | the answer to a delivery and what it leaves, for a new event, other bytes, a processed and an unprocessed one |
| Webhooks.EndIs | internal/modules/orders/webhook.go:138-156 | what the end of a delivery writes, by success, failure and crash |
| Outbox.ClaimedInOrder | internal/outbox/outbox.go:189-217 | as long as every replay is safe, in particular without replays, a message ever claimed has every older message of its key out of the queue |
| Outbox.NoMessageIsLost | internal/outbox/outbox.go:235-308 | a message leaves only by a fully successful run or by a failing run at its last attempt |
| Outbox.ClaimedIsExclusive | internal/outbox/outbox.go:189-221 | a claimed message can be claimed by nobody else exactly until its lock expires |
| Outbox.RefusedComesBack | internal/outbox/outbox.go:299-307 | a refused message is claimable again exactly once its backoff has passed |
| Outbox.LastAttemptEnds | internal/outbox/outbox.go:275-308 | a run at the last attempt takes its message out either way |
| Outbox.ReplayKeepsOrderIff | internal/outbox/outbox.go:338-350 | a replay keeps the order exactly when no newer message of its key was ever claimed, replayed since or not |
| Outbox.OrderHoldsIff | internal/outbox/outbox.go:338-350 | over every run, the order holds throughout exactly when every replay was such a one |
| Outbox.ReplayBreaksOrder | internal/outbox/outbox.go:338-350 | a run in which a replay breaks it |
| Outbox.ForgottenClaimBreaksOrder | internal/outbox/outbox.go:338-350 | a run in which a newer message, claimed, replayed and then delivered late, reads as never attempted, and replaying the older one leaves it waiting behind |
| Outbox.LeastOfKeyIsEligible | internal/outbox/outbox.go:192-213 | the oldest pending message of a key is claimable exactly once its times have passed |
| Outbox.AlwaysDrainable | internal/outbox/outbox.go:185-233 | from every state the queue can be drained |
| Outbox.BackoffIsMonotone | internal/outbox/outbox.go:310-319 | waits never shrink and stay between 2 and 600 seconds |
| Outbox.ComputeBackoff | internal/outbox/outbox.go:310-319 | the doubling loop is min(2 * 2^(n-1), 600) |
| Outbox.Process | internal/outbox/outbox.go:235-264 | every handler runs, and a message is acknowledged exactly when none failed |
| Outbox.Table.ClaimUpTo | internal/outbox/outbox.go:185-233 | the claim takes the first eligible messages by availability and id that no other claim holds, locks and counts them |
| Outbox.Table.Finish | internal/outbox/outbox.go:266-308 | the acknowledgement or rejection of a message in hand |
| QueueRules.EligibleIs | internal/outbox/outbox.go:192-206 | on the row's own fields, exactly which messages may be claimed |
| QueueRules.ClaimIs | internal/outbox/outbox.go:207-221 | what a claim writes on every row it takes, and that it writes on no other |
| QueueRules.AcknowledgeIs | internal/outbox/outbox.go:266-273 | what an acknowledgement writes, the message being in hand or not any more |
| QueueRules.RejectIs | internal/outbox/outbox.go:275-319 | what a rejection writes: dead from the last attempt on, otherwise waiting 2, 4, 8 and so on up to 600 seconds |
| QueueRules.ReplayIs | internal/outbox/outbox.go:338-350 | what a replay writes, and that it touches dead letters alone |
| Codec.SelfDelimiting | internal/modules/provenance/cbor.go:81-183 | the bytes an item consumed decide its value and length, whatever follows |
| Codec.PrefixFree | internal/modules/provenance/cbor.go:81-183 | no accepted encoding is a proper prefix of another |
| Codec.Decode | internal/modules/provenance/cbor.go:81-183 | the looping decoder equals the recursive one, error by error, and terminates |
| Encoder.HeadRoundTrip | internal/modules/provenance/cbor.go:323-342 | a head is read back with any bytes after it |
| Encoder.HeadIsShortest | internal/modules/provenance/cbor.go:323-342 | no accepted head carries the same argument in fewer bytes |
| Encoder.StringRoundTrip | internal/modules/provenance/cbor.go:344-350 | byte and text strings decode to themselves with any bytes after them |
| Encoder.IntegerRoundTrip | internal/modules/provenance/cbor.go:98-105 | so do integers; negative ones exactly up to the int64 range |
| Encoder.ArrayRoundTrip | internal/modules/provenance/cbor.go:352-358 | so do arrays of whole encodings up to 2^20 elements within the depth bound |
| Encoder.MapRoundTrip | internal/modules/provenance/cbor.go:134-154 | so do maps: for each entry an encoding of its key and one of its value, and they decode to these keys with these values in that order, repeated keys included |
| Encoder.TagRoundTrip | internal/modules/provenance/cbor.go:156-161 | so do tags: the number and the one item after it |
| Encoder.SimpleRoundTrip | internal/modules/provenance/cbor.go:163-172 | false, true, null and undefined are their four bytes |
| Encoder.FloatRoundTrip | internal/modules/provenance/cbor.go:173-178 | floats of two, four and eight bytes are read by their bits |
| Encoder.OtherHeadsAreRefused | internal/modules/provenance/cbor.go:163-219 | indefinite lengths, reserved heads and other simple values are refused |
| Encoder.ClaimsAreChecked | internal/modules/provenance/cbor.go:107-140 | a length or count the remaining bytes cannot hold is refused |
| Floats.HalfIs | internal/modules/provenance/cbor.go:231-256 | the value of a two-byte float by sign, exponent and mantissa |
| Floats.SingleIs | internal/modules/provenance/cbor.go:175-176 | that of a four-byte one |
| Floats.HalfToSingle | internal/modules/provenance/cbor.go:231-256 | the widening of a half, its loop over the leading zeros included, keeps the value |
| Encoder.BuildArray | internal/modules/provenance/cbor.go:352-358 | the appending loop builds that encoding |
| Encoder.SigStructureDecodes | internal/modules/provenance/c2pa.go:329-334 | the signed bytes decode to the four fields of the Sig_structure |
| Encoder.SigStructureIsInjective | internal/modules/provenance/c2pa.go:329-334 | different protected headers or payloads never share signed bytes |
| Claim.SameClaimIff | internal/modules/provenance/c2pa.go:144-195 | on distinct text keys, claims compare as the same exactly when they mean the same and hold no not-a-number |
| Claim.MeaningForgetsOnlyOrder | internal/modules/provenance/c2pa.go:139-143 | meaning is equality up to the order of map entries |
| Claim.SameClaimIsAnEquivalence | internal/modules/provenance/c2pa.go:144-195 | hence it is an equivalence there |
| Claim.SameClaimIsTransitive | internal/modules/provenance/c2pa.go:144-195 | on any claims, repeated and other keys included, the comparison is transitive |
| Claim.TurnsRoundIff | internal/modules/provenance/c2pa.go:144-195 | once a compares the same as b, b compares the same as a exactly when b does as itself and every key of b, at every depth, has its partner in a |
| Claim.TextMapsIff | internal/modules/provenance/c2pa.go:144-195 | maps of text keys, repeated or not, compare as the same exactly when their sizes agree and every entry of the first means what the second's first entry under its key means |
| Claim.TextMapsTurnRoundIff | internal/modules/provenance/cbor.go:272-282 | then the other way round exactly when every key of the second is in the first and its entries under one key agree in meaning |
| Claim.RepeatedKeysBreakSymmetry | internal/modules/provenance/cbor.go:272-282 | two maps that compare as the same one way and not the other |
| Containers.FindJpegManifest | internal/modules/provenance/c2pa.go:597-638 | the segment walk terminates with in-bounds, ascending, disjoint ranges, one for each piece |
| Containers.WalkStoresPayloads | internal/modules/provenance/c2pa.go:618-629 | the manifest is exactly the payloads of the excluded ranges, each of them a whole APP11 segment |
| Layouts.JpegFinds | internal/modules/provenance/c2pa.go:597-638 | of an image laid out piece by piece, whatever its segments, exactly the payloads and places of the manifest segments are found |
| Layouts.NumbersAre | internal/modules/provenance/c2pa.go:618-629 | instance and sequence are the two and four bytes at their places |
| Containers.FileOrderIsReassemblyIff | internal/modules/provenance/c2pa.go:590-629 | joining in file order takes the same segments in the same order as reassembly by their numbers exactly when they carry one box instance and ascending packet sequences |
| Containers.FileOrderIsNotReassembly | internal/modules/provenance/c2pa.go:590-629 | a file whose segments are joined the wrong way round |
| Containers.ExcludeRanges | internal/modules/provenance/c2pa.go:559-572 | on such ranges it keeps exactly the bytes outside them, in order, shorter by their total |
| Containers.SplicedIsOutside | internal/modules/provenance/c2pa.go:559-572 | the same for every starting point, by induction over the ranges |
| Containers.BoundBytes | internal/modules/provenance/c2pa.go:539-545 | what the hard binding of a JPEG hashes |
| Containers.FindPngManifest | internal/modules/provenance/c2pa.go:641-660 | the first manifest chunk, whole and in bounds, or none |
| Layouts.PngFinds | internal/modules/provenance/c2pa.go:641-660 | of an image laid out chunk by chunk, exactly the data of the first manifest chunk before the end is found |
| Ranking.ExposureFactor | internal/modules/ranking/ranking.go:235-247 | the decaying loop equals its recurrence, the early stop included |
| Ranking.FactorNeverIncreases | internal/modules/ranking/ranking.go:235-247 | weight never increases with rank |
| Ranking.ExposureIsBounded | internal/modules/ranking/ranking.go:235-247 | any number of listings weigh at most cap * 10000 + 10000 d / (10000 - d) together |
| Ranking.PublishedBound | internal/modules/ranking/ranking.go:68-77 | with the published parameters that is at most 53,333 |
| Ranking.ScoreNeverGains | internal/modules/ranking/ranking.go:216-218 | a score never exceeds recency, and neither score nor band gains from a later rank |
| Ranking.ScoreIs | internal/modules/ranking/ranking.go:216-233 | a score is the recency at the weight of its rank, rounded down, and nothing without the gate; its band is the one it falls into |
| Ranking.WeightsAre | internal/modules/ranking/ranking.go:235-247 | full weight within the cap, then the decay of the one before; the published weights are 10,000 three times, 7,000, 4,900, 3,430 |
| Ranking.TotalScoreIsBounded | internal/modules/ranking/ranking.go:216-218 | a seller's scores together are bounded by the weights |
| Ranking.Order | internal/modules/ranking/ranking.go:256-272 | the result is a sorted permutation of the stamped listings |
| Ranking.OrderIsCanonical | internal/modules/ranking/ranking.go:249-255 | with distinct product ids it does not depend on the input order |
| Ranking.OrderReads | internal/modules/ranking/ranking.go:256-272 | bands descend, under one band keys ascend, under one key ids ascend in dictionary order |
| Assets.CleanMeansScanned | internal/modules/catalog/asset.go:228-306 | under crashes, retries and duplicate jobs, a clean row's deliverable holds the recorded bytes, judged clean |
| Assets.OnlyCleanIsPromoted | internal/modules/catalog/asset.go:274-281 | nothing reaches the deliverable key but bytes judged clean |
| Assets.DeliversIff | internal/modules/catalog/asset.go:258-281 | over every run, overwrites included, what is delivered is the recorded bytes, judged clean, exactly when every copy still found them in quarantine |
| Assets.OverwriteDefeatsTheScan | internal/modules/catalog/asset.go:258-281 | a run in which an overwrite puts unjudged bytes behind a clean row |
| Assets.ScanIsIdempotent | internal/modules/catalog/asset.go:248-250 | a job on a decided asset changes nothing |
| Assets.Asset.Finalise | internal/modules/catalog/asset.go:111-206 | the row records the digest read back from the store |
| Assets.Asset.ScanAsset | internal/modules/catalog/asset.go:228-306 | one job leaves exactly what the protocol's steps leave, an unknown asset and a missing object included |
| Assets.ScanIs | internal/modules/catalog/asset.go:228-306 | what one job leaves, by the asset's status, the verdict and the failures on the way |

## Left out

- SQL text, connection pool, HTTP handlers, provider clients, object storage, mail, configuration, metrics and audit rows: plumbing. A provider's answer, eligibility for a refund, the linked-account readiness of sellers and the settlement scan's rows are parameters.
- Allocation by weights (internal/platform/money/money.go:239-290): nothing outside its own tests calls it.
- Service.Service.ConfirmPayment: authorisation and capture at the provider, and the check of its signature, come before the modelled transaction; a webhook's amount mismatch, which the code records for reconciliation and acknowledges, is the same refusal here.
- Service.Service.Checkout: the checks on the request's form (a domestic buyer's state code, a business order's GSTIN), availability checks of the catalogue, the replay of an idempotent checkout and a mixed-currency cart are not modelled; everything is in one currency.
- Service.Service.Refund: the retained processing fee, turnover, download evidence and the policy snapshot behind eligibility are not modelled.
- Service.Service.RecordCapture: invoices, turnover rows, sales counters and outbox messages are not modelled, nor is the split of GST on commission between invoices.
- Service.Service.ApplyOffsets: rows are taken in the order of their table, which stands for their creation time.
- Ledger.Validate: the checks of kind, description, reference and key for being empty, and of a line's direction and account for being set, hold by the types.
- Transactions.InTx: cancellation of the context, panics and the jitter of the wait are not modelled; the answers of the database are a parameter.
- PostRace.EveryInterleavingIsSound: deadlocks and serialization failures are aborts that can happen at any point, not derived from the lock graph.
- CaptureRace.AtMostOneCaptureCommits: the amount check and the other rows of the capture are in `Captures`; here they commit with the status.
- Webhooks.ProcessedStaysProcessed: the status `ignored`, which nothing writes, and the handlers themselves are not modelled.
- Outbox.ClaimedInOrder: ids follow the order of insertion, as the guard in the claim assumes.
- Ranking.Order: the mixing function is a parameter, the exponential recency curve is an input between 0 and 1,000,000, and the sort, a library call in the code, is an insertion sort.
- Encoder.SigStructureIsInjective: digests, signatures and certificates are outside the model.
- Containers.FindJpegManifest: the box tree inside the payload and the ISO base media walk are not modelled; the latter assumes boxes of at least 24 bytes.
- Containers.FindPngManifest: the box tree inside the chunk is not modelled.
- Claim.SameClaimIff: maps with keys that are not text are compared by position, as the code does, but the theorem is about text keys.
- Assets.CleanMeansScanned: provenance signals and moderation cases recorded beside the verdict are not modelled.
- Sales limits, "never released while disputed" and the exclusion of dispatched and failed after lock expiry are not decided by this code and are not claimed.
