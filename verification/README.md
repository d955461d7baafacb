# Verified model of the Gorrillazz node

A model of the single-producer Gorrillazz chain and proofs about it: the two-token account ledger, the
transaction pool, the block producer, the payment gateway the producer settles into, the RPC ledger
handlers, the raw-transaction endpoint with its own nonce table, and the chain with its receipts and
transaction index. `dafny verify dfyconfig.toml` checks everything.

## How it is built

Every component appears twice. A *specification* gives each operation as a function on values
(`Ledger`, `GatewaySpec`, `Producer`, `RpcSpec`, `EthSpec`, `ChainSpec`), and the theorems are about these
functions and about all runs composed of them (`Runs`). A *class* does what the code does, step by step and
in place (`StateStore.State`, `StateStore.NativeTokenEngine`, `PaymentGateway.PaymentIntent` and `Gateway`,
`TxPools.TxPool`, `Blockchain.Blockchain`, `BlockProduction.BlockProducer`, `RpcServer.Server` and `EthRPC`,
`Explorer.ExplorerAPI`); each method's contract equates its new state and result with the specification
function of the old state. `Node.RunNode` closes the gap for whole runs: the node built from these objects and
driven through any run ends in the state the specification gives that run, so the theorems carry over.

What an operation is for is said a second time, apart from the function that specifies it: the `...Effects` modules
give every balance, counter, flag, invoice field, receipt and answer in closed form from the call's own arguments, the
configured addresses and the state before it. `NodeEffects.AccountStatement` adds the balances up over every run.

| file | content |
|---|---|
| `Types.dfy` | entities; uint64 with explicit wrap; hashing and sender recovery as arbitrary functions |
| `Ledger.dfy` | guarded and stale-read transfers, totals, exact drift under every overlap |
| `Fees.dfy` | fee arithmetic |
| `PaymentTag.dfy`, `SdkTag.dfy` | the `GORR_PAY:<id>` tag as the producer parses it and as a JavaScript number prints it |
| `GatewaySpec.dfy`, `EagerGateway.dfy` | the invoice state machine over every history; exactly when lazy expiry answers as eager expiry |
| `Producer.dfy` | one pass over a pool snapshot; an independent block validator; alignment; money |
| `RpcSpec.dfy`, `EthSpec.dfy` | handlers and raw sends as steps |
| `ChainSpec.dfy`, `Runs.dfy` | genesis, blocks, index, settlement; every run of the whole node |
| `NodeClock.dfy` | runs under a wall clock that does not go back |
| `Interleaving.dfy`, `Serial.dfy`, `Anomalies.dfy`, `NodeJobs.dfy` | two jobs of any number of parties running concurrently over the unlocked store; exactly when that differs from every serial order; the node's transfers, sends and payments as such jobs |
| `RpcEffects.dfy`, `GatewayEffects.dfy`, `BlockEffects.dfy` | what each request, raw send, gateway call and block does, in closed form |
| `NodeEffects.dfy` | what each step leaves alone; every balance of every run as an account statement |
| `State.dfy`, `PaymentGateway.dfy`, `TxPool.dfy`, `Blockchain.dfy`, `BlockProducer.dfy`, `RpcServer.dfy`, `Explorer.dfy` | the classes |
| `Node.dfy` | the objects wired together, and their refinement of every run |

Modelling choices: storage is a finite map without I/O failure, and an account never saved reads as zero.
Transaction hash, header hash and sender recovery are fields of a `Crypto` record that every theorem
quantifies over; freedom from collisions is assumed only where a lemma says so, and only among the
transactions or sends the run has stored. Clock readings are inputs: the block time and, for each visited
transaction, the reading made by the invoice fetch. `big.Int` is `int` (its `Div` is Euclidean, as Dafny's `/` is); a
nil amount, which the code rejects together with non-positive ones, is such an amount. An empty `TxHash` string is `None`. Requests arrive decoded; a missing or unparsable
whole-coin amount is part of the model.

## What the proofs found

- A plain self-transfer mints its amount, and payments whose payer, merchant and treasury overlap mint or
  lose money by amounts given exactly in `Ledger.StalePaymentTotal`. `Runs.Conservation` adds them up over
  every run; `Runs.SafeIffNoDrift` says exactly which transactions are harmless.
- The comment on the nonce step says the nonce is raised after success (`consensus/producer/producer.go:131`),
  but `IncreaseNonce` saves the account as read (`state/state.go:89-95`): account nonces stay 0 for ever, and
  only transactions with nonce 0 are ever included (`Runs.OnlyNonceZeroIsIncluded`).
- Fee rates are not bounded, and `int64(bps)` turns the upper half of the range negative: a send of a
  positive amount drifts exactly when the rate is outside 0% to 100% (`Fees.SendDriftZero`), by the amount `Fees.SendDriftIsExact` gives.
- An error from `HandleSendNative` while paused, or from the GORR branch of `HandleAdminForceTransfer` on the
  zero target, comes after the debit was accepted: a covered send or seizure leaves the state of a success, and
  every other error leaves the state alone (`RpcSpec.ErrorsAndState`). Money has moved exactly when the send was
  of a positive amount and either had another receiver or charged a fee, or when the treasury is not itself the
  zero address (`RpcSpec.ErrorMovesMoneyIff`).
- Two concurrent jobs (one debit, any number of payouts) have an interleaving that ends in neither serial ledger
  exactly when they share an account that one of them changes (`Anomalies.AnomalousIffConflict`). For two
  transfers that is any shared account, whatever the tokens, since both balances are one record
  (`NodeJobs.SerializableIffDisjoint`). At a positive fee rate any two native sends clash over the treasury's record
  (`NodeJobs.SendsSerializableIff`), and so do a send and a payment (`NodeJobs.PaymentAndSendIff`).
- The SDK takes the invoice id as a JavaScript number. Its tag parses back exactly when the id is at most 2^53, or
  when rounding the id to one digit less, down and up, gives other numbers (`SdkTag.SdkRoundTripIff`): a check a
  caller can compute. The tag for 2^55 names the id 2^55 + 2 (`SdkTag.SdkTagFails`).
- Lazy expiry answers as eager expiry as long as the clock does not go back; in general exactly until a call looks
  at a pending invoice with a reading not past its expiry, although an earlier reading was
  (`EagerGateway.LazyIsEagerIff`). The producer does stamp a mark earlier than the fetch before it, yet under a wall
  clock that does not go back the node never meets that case (`NodeClock.NodeAnswersEagerly`).
- Id density breaks exactly at the creation that wraps the uint64 counter, block numbering exactly at the block
  that wraps the number (`GatewaySpec.CreateKeepsDense`, `ChainSpec.ProduceKeepsNumbersIff`).

## Model

| member | source | states |
|---|---|---|
| Ledger.TotalPut | state/statedb.go:83-92 | saving one account record moves a token's total by exactly that record's change |
| Ledger.GuardedTransferConserves | state/balance_helpers.go:11-92 | subtract-then-add on the re-read ledger conserves both tokens under every overlap |
| Ledger.StaleTransferTotal | consensus/producer/producer.go:190-217 | the plain transfer adds its amount to the total when sender = receiver, and nothing otherwise; the other token is untouched |
| Ledger.StalePaymentTotal | consensus/producer/producer.go:268-313 | the payment's exact effect on the total under every overlap of payer, merchant and treasury: 0, +value, -net or +fee |
| Ledger.PaymentDriftZero | consensus/producer/producer.go:279-313 | for every value, negative ones included, that effect is zero iff the value is 0, or the parties are pairwise distinct, or all are equal and 0 <= value < 40, or merchant = treasury, the payer is another and the value is -1 |
| Ledger.StaleIsGuarded | modules/tokens/native.go:77-102 | for every amount the sender can pay, the stale-read transfer gives the same ledger as the guarded one iff sender and receiver differ or the amount is 0 |
| Fees.SplittingFees | rpc/fees.go:5-13 | splitting a payment into k parts never raises the total fee and lowers it by at most k-1 wei |
| Fees.FeeIsMonotone | rpc/fees.go:5-13 | for non-negative amounts and rates that int64 keeps non-negative, the fee is non-negative and monotone in both |
| Fees.SplittingCoins | rpc/methods.go:286-292 | on whole coins the fee of the sum is the sum of the fees |
| Fees.SendDriftIsExact | rpc/methods.go:287-306 | what a native send credits exceeds what it debits by exactly the excess of the rate over 100%, or by the negative fee of a rate int64 turns negative |
| Fees.SendDriftZero | rpc/methods.go:287-306 | a send creates no money iff it moves nothing or the rate lies in 0% to 100%, and never destroys any |
| PaymentTag.ParseTagExact | consensus/producer/producer.go:349-367 | the parser accepts exactly the prefix followed by one or more decimal digits denoting a number below 2^64, and returns that number |
| PaymentTag.TagRoundTrip | consensus/producer/producer.go:349-367 | the parser gives back every uint64 whose decimal digits follow the prefix |
| SdkTag.SdkRoundTripIff | lib/blockchain/gorrillazz-sdk.ts:283-287 | the tag the SDK prints for an id that is a JavaScript number parses to that id iff the id is at most 2^53 or neither neighbouring multiple of the least power of ten that does not divide it rounds to the same number |
| SdkTag.EveryNumberPrints | lib/blockchain/gorrillazz-sdk.ts:283-287 | every such number has a printed form, so the condition is never about an empty case |
| SdkTag.SafeIdsRoundTrip | lib/blockchain/gorrillazz-sdk.ts:248-287 | an id of at most 2^53 is such a number, prints as itself, and parses back |
| SdkTag.SdkTagFails | lib/blockchain/gorrillazz-sdk.ts:283-287 | the id 2^55 prints as 2^55 + 2, and its tag parses to that other id |
| SdkTag.NotEveryIdIsANumber | lib/blockchain/gorrillazz-sdk.ts:248 | 2^53 + 1 is no JavaScript number, so the SDK cannot be given it |
| GatewaySpec.ApplyKeepsOk | modules/payment_gateway/payment_gateway.go:89-318 | every call keeps ids dense, amounts positive, paid iff status paid/refunded/settled, refunded only after paid, PaidAt within expiry; terms never change, status only moves up, payment data is written once |
| GatewaySpec.GatewayInvariant | modules/payment_gateway/payment_gateway.go:89-331 | that invariant after every history of fewer than 2^64 successful creations, whose number the counter then is |
| GatewaySpec.GatewayOkIff | modules/payment_gateway/payment_gateway.go:105-122 | after a history the invariant holds iff fewer than 2^64 creations succeeded |
| GatewaySpec.CreateKeepsDense | modules/payment_gateway/payment_gateway.go:105-122 | a creation keeps the ids exactly 1..counter iff the counter does not wrap |
| GatewaySpec.IntentsEvolve | modules/payment_gateway/payment_gateway.go:89-318 | between any two points of a history an intent keeps its id, merchant, amount, token, timestamp and expiry, and, once it left pending, its payment data |
| GatewaySpec.LifeOfAnIntent | modules/payment_gateway/payment_gateway.go:168-318 | an intent changes status at most three times and becomes paid at most once |
| GatewaySpec.ExpiredIffTouchedLate | modules/payment_gateway/payment_gateway.go:310-318 | for clock readings in any order, an intent is expired iff some refreshing call met it pending after its non-zero expiry |
| GatewaySpec.ListingIsComplete | modules/payment_gateway/payment_gateway.go:145-159 | whatever the iteration order, a listing holds each of the merchant's intents exactly once, refreshed |
| EagerGateway.LazyRefinesEager | modules/payment_gateway/payment_gateway.go:128-237 | with a clock that never goes back, every reply equals that of a gateway that expires all overdue intents at every tick, although settling never refreshes |
| EagerGateway.LazyIsEagerIff | modules/payment_gateway/payment_gateway.go:128-318 | for clock readings in any order, the two gateways give the same replies iff no call that distinguishes pending from expired meets, at a reading not past its expiry, a still pending intent that some reading since its creation was past |
| EagerGateway.ClockMustNotGoBack | modules/payment_gateway/payment_gateway.go:168-193 | one history of two calls where they differ: another intent fetched after the expiry, then a payment stamped before it, which the eager gateway refuses and the lazy one takes |
| Producer.PaymentByTerms | consensus/producer/producer.go:226-313 | whether a payment's money moves depends only on ledger, token and merchant of the invoice, never on its status or the clock |
| Producer.VisitIsExecute | consensus/producer/producer.go:89-160 | the producer includes a transaction iff an independent validator accepts it, to the same ledger; a skipped one changes nothing but the gateway's refresh |
| Producer.Replay | consensus/producer/producer.go:86-160 | the included transactions alone, executed in order from the parent ledger, are all accepted and give the producer's ledger |
| Producer.ValidateLater | consensus/producer/producer.go:248-265 | invoices created later cannot invalidate a block |
| Producer.SelectIsInOrder | consensus/producer/producer.go:86-138 | the block lists strictly increasing snapshot positions, exactly the acceptable ones |
| Producer.AcceptsAt | consensus/producer/producer.go:89-129 | acceptable means: accepted by the validator on the ledger reached by that position |
| Producer.BlockIsSelection | consensus/producer/producer.go:86-138 | the block is that selection |
| Producer.ReceiptsMatchBlock | consensus/producer/producer.go:145-156 | receipts match the finished block one-to-one by hash, block hash, number, index, parties, gas and status, although stamped while the block was shorter |
| Producer.PoolIsFiltered | core/txpool/pool.go:41-52 | after the pass the pool is the old pool without the included hashes, order kept |
| Producer.PassIndexes | consensus/producer/producer.go:140-143 | the pass points the index at the new block for exactly the included hashes and leaves all other entries |
| Producer.ValidateTotal | consensus/producer/producer.go:184-313 | a block moves the GORR total by exactly the sum of its transactions' drifts and the USDCc total not at all |
| Producer.FundsAndMark | consensus/producer/producer.go:248-328 | when a payment's money moves, the invoice is marked by it iff it was pending, overdue neither at the fetch nor at block time, and covered; otherwise the invoice is as it was, expired if overdue at the fetch or, for a positive value, at block time |
| Producer.MarkFollowsClone | consensus/producer/producer.go:316-328 | with a block time not after the fetch, the mark succeeds iff the fetched clone was pending and covered |
| RpcSpec.HandleTotal | rpc/methods.go:91-464 | every handler moves each token's total by exactly what it issues plus, for GORR, the drift of a native send |
| RpcSpec.ErrorsAndState | rpc/methods.go:154-319 | an error leaves the state unchanged except for two late checks, which leave the whole state of a success |
| RpcSpec.ErrorMovesMoneyIff | rpc/methods.go:154-319 | an erring request changes some balance or the collected fees iff it failed a late check and had something to move: a positive native amount to another receiver or with a fee, or a seizure into a treasury other than the zero address |
| RpcSpec.HandleFees | rpc/methods.go:290-456 | the collected GORR counter moves by the fee charged minus the amount withdrawn, which never exceeds it |
| RpcSpec.HandleKeepsSolvent | rpc/methods.go:401-456 | with an admin other than the treasury and no native send from it, the treasury keeps covering the collected fees |
| RpcSpec.HandleKeepsNonNegative | rpc/methods.go:34-464 | no handler drives a balance below zero |
| EthSpec.RefusedSendChangesNothing | rpc/eth_rpc.go:149-176 | a refused raw send leaves ledger, nonces and records unchanged |
| EthSpec.AcceptedHashIsNew | rpc/eth_rpc.go:180-201 | unless it shares its hash with an earlier accepted send of another sender or nonce, an accepted send has a new hash, so it overwrites no record |
| ChainSpec.GenesisTotalIsExact | core/blockchain/blockchain.go:181-193 | the starting total under every overlap of admin, treasury and EVM user |
| ChainSpec.ProduceKeepsChain | consensus/producer/producer.go:65-170 | a block keeps storage gap-free, parent hashes linked, receipts aligned, and the index in agreement with a scan |
| ChainSpec.ProduceKeepsNumbersIff | consensus/producer/producer.go:75-83 | the numbering survives a block iff the uint64 number does not wrap |
| ChainSpec.BlockReplays | consensus/producer/producer.go:65-170 | a stored block, validated alone from the parent ledger under the invoice terms of that time or any that extend them, is accepted and gives the ledger its production left |
| ChainSpec.LedgerIgnoresStatus | consensus/producer/producer.go:248-265 | block and ledger do not depend on invoice statuses or on clock readings |
| ChainSpec.ProduceAligns | consensus/producer/producer.go:86-170 | block = selection of the acceptable pooled transactions, pool = the rest by hash, stored receipts = the block's |
| ChainSpec.PassKeepsSettlement | consensus/producer/producer.go:226-340 | through the whole pass, every on-chain paid invoice has its witness transaction in the block it names, the block under construction included |
| ChainSpec.CallKeepsSettlement | modules/payment_gateway/payment_gateway.go:128-237 | no gateway call by a client disturbs a witness |
| Runs.GatewayHasHistory | consensus/producer/producer.go:249-324 | the node's gateway after any run is the gateway of an explicit history of client and producer calls, so a theorem about all histories holds of the node; the one that asks for a clock that never goes back is `NodeClock.NodeAnswersEagerly` |
| NodeClock.NodeAnswersEagerly | consensus/producer/producer.go:84-324 | on every run whose wall clock does not go back, no call of the node's history revives a missed invoice, although marks are stamped with the earlier block time, so every reply is that of eager expiry |
| Runs.NodeInvariant | consensus/producer/producer.go:65-340 | after every run of fewer than 2^64 blocks and fewer than 2^64 invoices: the head number and the id counter count them, chain, receipts and index in order, gateway in order, and every invoice with a TxHash witnessed by a transaction of block BlockNumber with that hash, receiver = merchant, value >= amount, tag = id, sender = payer, PaidAt = block time |
| Runs.TermsGrow | modules/payment_gateway/payment_gateway.go:89-124 | the invoice terms known at any point of a run are known, unchanged, at its end |
| Runs.EveryBlockReplays | consensus/producer/producer.go:65-170 | every block a run produces is still stored at its end, and validated alone under the terms of the end, it gives the ledger its production left |
| Runs.IndexIsScan | core/blockchain/blockchain.go:339-358 | after every run the index gives n iff n is the greatest stored block containing the hash, and fails iff none does |
| Runs.OneInvoicePerTransaction | consensus/producer/producer.go:316-324 | no two invoices share a transaction hash, provided transactions of stored blocks with equal hashes have equal data |
| Runs.Conservation | rpc/methods.go:91-319 | after every run a token's total is genesis plus issuance, plus for GORR the drift of every block and send |
| Runs.SafeIffNoDrift | consensus/producer/producer.go:184-313 | for every transaction, negative values included, inclusion leaves the total alone iff its parties do not overlap harmfully or its value is one of the few that round away |
| Runs.SafeRunsDoNotDrift | rpc/methods.go:321-347 | runs that pool only such transactions and set rates up to 100% never drift |
| Runs.NobodyInDebt | state/balance_helpers.go:11-92 | when every pooled value is non-negative, no balance of either token is ever negative |
| Runs.OnlyNonceZeroIsIncluded | state/state.go:81-95 | account nonces stay 0 over every run, so every stored transaction has nonce 0 |
| Runs.FeeLedger | state/state.go:160-198 | over every run the GORR counter is fees charged minus fees withdrawn and never negative, so the clamp is never taken |
| Runs.TreasuryStaysSolvent | rpc/methods.go:379-464 | while the treasury never sends and is not the admin, and every pooled value is non-negative, its balance covers the counter after every run |
| Runs.EthTable | rpc/eth_rpc.go:149-201 | over every run each sender's accepted nonces are exactly 0, 1, 2, ... in order and the table holds their number, iff no sender has 2^64 of them; then there is exactly one record per accepted send, with its data, iff no two accepted sends of different sender or nonce share a hash |
| RpcEffects.RequestMoves | rpc/methods.go:34-464 | for every request, account and token the exact change of that balance from the request's own fields: who is paid, who pays, the treasury's part, and 0 for everybody else or when the request is refused before moving; no request touches a nonce |
| RpcEffects.SupplyMoves | state/state.go:98-115 | a mint raises the reported supply of its token by its amount, sign included, a burn lowers it unless the counter is unknown or too small, and nothing else moves it |
| RpcEffects.CollectedMoves | state/state.go:160-198 | a covered native send adds its positive fee to the GORR counter, a withdrawal that goes through takes what it pays out, and nothing else moves a counter |
| RpcEffects.FlagsMove | rpc/methods.go:321-347 | pause flag and rate change only when the admin asks, and to what is asked |
| RpcEffects.RequestAnswers | rpc/methods.go:34-545 | every request is answered by its first failing test in the order of the code, or by its amounts |
| RpcEffects.RawSendAnswers | rpc/eth_rpc.go:140-204 | a raw send is accepted iff its sender recovers, its nonce is the table's, its receiver is non-zero, its value positive and covered; otherwise the first failing test is the answer |
| RpcEffects.RawSendMoves | rpc/eth_rpc.go:171-177 | an accepted raw send takes its value from the sender, gives it to the receiver, and moves no other balance of either token; to oneself it moves nothing |
| RpcEffects.RawSendRecords | rpc/eth_rpc.go:179-201 | it raises the sender's table nonce by one, modulo 2^64, and stores one record with its own hash, parties, value, nonce, block number and time |
| GatewayEffects.CreationStores | modules/payment_gateway/payment_gateway.go:89-124 | at any point of any history a creation stores and returns a pending invoice with its own merchant, amount, token and timestamp, and expiry (ts + s) mod 2^64, s being the last setting before it or 900 |
| GatewayEffects.CreationRefused | modules/payment_gateway/payment_gateway.go:95-101 | a creation without positive amount or token is refused, amount first, and stores nothing |
| GatewayEffects.NotExpiredBefore | modules/payment_gateway/payment_gateway.go:310-318 | while ts + s < 2^64, no call with a reading up to ts + s expires the invoice, through the rest of any history of fewer than 2^64 creations |
| GatewayEffects.FetchDoes | modules/payment_gateway/payment_gateway.go:128-141 | a fetch answers with the invoice as read at that time and stores it so |
| GatewayEffects.PaymentDoes | modules/payment_gateway/payment_gateway.go:168-193 | a soft payment of a pending invoice records payer and time; a processed one is returned as is, an expired one refused |
| GatewayEffects.RefundDoes | modules/payment_gateway/payment_gateway.go:198-218 | exactly the paid invoices are refunded |
| GatewayEffects.SettlementDoes | modules/payment_gateway/payment_gateway.go:222-237 | exactly the paid and refunded invoices are settled, and no expiry is looked at |
| GatewayEffects.MarkDoes | modules/payment_gateway/payment_gateway.go:253-302 | a mark pays exactly a pending invoice of that merchant in full and records payer, time, hash and block, or fails with its first failing test |
| GatewayEffects.ListingDoes | modules/payment_gateway/payment_gateway.go:145-159 | a listing refreshes exactly the merchant's invoices and answers with exactly those |
| BlockEffects.VisitIncludes | consensus/producer/producer.go:89-133 | a transaction is included iff its recovered sender, or a non-zero admin when there is none, has its nonce and covers its value, it has a receiver, and for a tag the treasury is set and the invoice is in GORR and names the receiver |
| BlockEffects.VisitPays | consensus/producer/producer.go:94-160 | that account is debited and named in the receipt; every balance, under every overlap of the parties, moves in closed form, the treasury by f with 10000 f <= 250 value < 10000 f + 10000 |
| BlockEffects.PaymentSplits | consensus/producer/producer.go:279-313 | among three different parties the payer falls by the value, the treasury rises by that f, the merchant by the rest, and no other balance of either token moves |
| BlockEffects.VisitMarks | consensus/producer/producer.go:248-324 | the fetched invoice ends paid by that transaction, refreshed, or expired, as given in closed form, and no other invoice changes |
| BlockEffects.VisitLeavesGateway | consensus/producer/producer.go:112-119 | a transaction that fetches no invoice leaves the gateway as it was |
| BlockEffects.ProductionEffects | consensus/producer/producer.go:65-170 | a production makes one such step at each pool position, each on the ledger reached by then, and stores block, header, receipts, index and ledger as they are at the end |
| BlockEffects.ReceiptsNameSigners | consensus/producer/producer.go:145-156 | every receipt of a block names the account that signs its transaction |
| BlockEffects.GenesisEffects | core/blockchain/blockchain.go:167-206 | every starting balance in literals under every overlap of the three addresses; everything else starts empty |
| BlockEffects.TagIsText | consensus/producer/producer.go:349-367 | the parser accepts exactly the text `GORR_PAY:` and a non-empty decimal numeral below 2^64, and returns the sum of its digits times their powers of ten |
| NodeEffects.StepFrames | node/node.go:32-79 | only block production extends the chain, and each of gateway, pool, ledger, counters and raw-send tables changes only in its own operations |
| NodeEffects.BlockMoves | consensus/producer/producer.go:65-170 | every balance a production moves can be computed from the stored block and its stored receipts |
| NodeEffects.AccountStatement | consensus/producer/producer.go:65-313 | after every run every balance is its genesis allocation plus the closed-form changes of the run's blocks, requests and raw sends |
| Interleaving.AloneIsAtomic | state/balance_helpers.go:11-50 | the step-by-step program of a job, run alone, performs its indivisible action, for any number of payouts |
| Interleaving.FirstThenSecond | state/balance_helpers.go:11-92 | for any two jobs some schedule completes, and ends as the serial order does |
| Serial.InterleavingIsSerial | state/state.go:51-76 | jobs that share no account either of them changes can leave exactly one ledger, that of both serial orders |
| Anomalies.AnomalousIffConflict | state/state.go:51-76 | for two covered jobs of either kind, any tokens and any non-negative payouts: some completed interleaving ends in neither serial ledger iff they share an account that one of them changes; a purse too small for both asks in addition that each job gives what it takes to somebody |
| NodeJobs.TransferIsJob | consensus/producer/producer.go:190-217 | the guarded and the stale transfer are the indivisible actions of their jobs |
| NodeJobs.SendIsJob | rpc/methods.go:286-306 | for every amount and rate, the ledger a native send leaves is that of its job of up to three parties |
| NodeJobs.PaymentIsJob | consensus/producer/producer.go:268-313 | the payment transfer is the indivisible action of its three-party job |
| NodeJobs.SerializableIffDisjoint | state/state.go:51-76 | for two transfers of either kind, in any tokens, each positive and covered: every completed interleaving ends in the ledger of one of the two serial orders iff they share no account |
| NodeJobs.DifferentTokensAreNotEnough | state/state.go:51-76 | two covered transfers from one account in different tokens have a completed interleaving that ends in neither serial ledger |
| NodeJobs.SendsSerializableIff | rpc/methods.go:286-306 | two covered native sends are serializable iff the rate, as int64, is not positive and they share neither sender nor receiver |
| NodeJobs.SendAndTransferIff | rpc/methods.go:286-306 | a covered native send and a covered transfer are serializable iff the transfer names no party of the send: sender, receiver up to a rate of 100%, treasury at a positive rate |
| NodeJobs.PaymentAndTransferIff | consensus/producer/producer.go:268-313 | a covered payment of any positive value and a covered transfer are serializable iff the transfer names none of payer, merchant and treasury; a payment below 40 wei by another to the treasury asks that a purse used by both pays for both |
| NodeJobs.PaymentAndSendIff | rpc/methods.go:286-306 | under the same proviso, a covered payment and a covered native send are serializable iff the rate is not positive and the send names none of payer, merchant and treasury |
| StateStore.State.SetBalance | state/state.go:51-58 | re-reads the record and replaces one balance of it |
| StateStore.State.IncreaseNonce | state/state.go:89-95 | saves the account as read |
| StateStore.State.AddBalance | state/balance_helpers.go:11-27 | the guarded credit; a negative amount changes nothing |
| StateStore.State.SubBalance | state/balance_helpers.go:30-50 | the guarded debit; refused exactly for a negative or uncovered amount |
| StateStore.State.SubSupply | state/state.go:106-115 | skips an unknown or too small counter |
| StateStore.State.SubCollectedFee | state/state.go:184-198 | subtracts with a clamp at zero |
| StateStore.NativeTokenEngine.Transfer | modules/tokens/native.go:77-105 | the stale-read transfer |
| StateStore.NativeTokenEngine.Mint | modules/tokens/native.go:35-60 | treasury only; replaces one balance by its sum with the amount, signed, keeps the nonce, and moves the total by it |
| StateStore.NativeTokenEngine.Burn | modules/tokens/native.go:43-71 | treasury only, covered amounts only; replaces one balance by its difference, keeps the nonce, and moves the total by it |
| PaymentGateway.Gateway.CreateIntent | modules/payment_gateway/payment_gateway.go:89-124 | the specified creation; the caller's clone is a fresh object outside the map |
| PaymentGateway.Gateway.GetIntent | modules/payment_gateway/payment_gateway.go:128-141 | refreshes in place and returns a fresh clone |
| PaymentGateway.Gateway.ListMerchantPayments | modules/payment_gateway/payment_gateway.go:145-159 | refreshes in place and returns fresh clones, in some order of the whole map |
| PaymentGateway.Gateway.PayIntent | modules/payment_gateway/payment_gateway.go:168-193 | the soft payment, in place |
| PaymentGateway.Gateway.RefundIntent | modules/payment_gateway/payment_gateway.go:198-218 | the refund, in place |
| PaymentGateway.Gateway.SettleIntent | modules/payment_gateway/payment_gateway.go:222-237 | the settlement, without a refresh |
| PaymentGateway.Gateway.MarkPaidFromTx | modules/payment_gateway/payment_gateway.go:253-302 | the on-chain payment with its errors in order, in place |
| TxPools.TxPool.Add | core/txpool/pool.go:21-30 | appends, or refuses nil |
| TxPools.TxPool.Remove | core/txpool/pool.go:41-52 | the rebuilt slice drops every transaction with that hash and keeps the order |
| Blockchain.Blockchain.constructor | core/blockchain/blockchain.go:128-214 | a node without a stored head starts in the genesis state |
| Blockchain.Blockchain.SetHead | core/blockchain/blockchain.go:230-236 | head and block store updated together |
| BlockProduction.BlockProducer.ProcessGORR | consensus/producer/producer.go:184-220 | the plain transfer on the live state |
| BlockProduction.BlockProducer.ProcessPaymentGORR | consensus/producer/producer.go:226-340 | the payment on the live state and gateway, with the specified acceptance and result |
| BlockProduction.BlockProducer.Produce | consensus/producer/producer.go:65-178 | the loop over the snapshot leaves exactly the specified node: ledger, gateway, pool, index, head, block and receipts |
| RpcServer.Server.HandleSendNative | rpc/methods.go:266-319 | the in-place handler has the specified state and outcome, pause test last |
| RpcServer.Server.HandleSendUSDCc | rpc/methods.go:34-54 | the in-place handler has the specified state and outcome, pause test first |
| RpcServer.Server.HandleAdminMint | rpc/methods.go:91-119 | the in-place handler has the specified state and outcome; a negative amount reaches only the supply counter |
| RpcServer.Server.HandleAdminBurn | rpc/methods.go:121-152 | the in-place handler has the specified state and outcome |
| RpcServer.Server.HandleAdminForceTransfer | rpc/methods.go:154-227 | the in-place handler has the specified state and outcome, zero target tested last for GORR |
| RpcServer.Server.HandleAdminMintToTreasury | rpc/methods.go:234-264 | the in-place handler has the specified state and outcome |
| RpcServer.Server.HandleAdminWithdrawFees | rpc/methods.go:379-464 | the in-place handler has the specified state and outcome |
| RpcServer.Server.HandleSetFees | rpc/methods.go:321-347 | the in-place handler has the specified state and outcome, the rate stored without a bound |
| RpcServer.Server.HandlePauseTransfers | rpc/methods.go:517-545 | the in-place handler has the specified state and outcome |
| RpcServer.EthRPC.SendRawTransaction | rpc/eth_rpc.go:149-204 | the in-place step on ledger, nonces and records |
| Explorer.ScanMeetsReceipt | explorer/handlers.go:88-98 | in a chain in order, the first transaction and the first receipt with a hash stand at the same position |
| Explorer.ExplorerAPI.HandleTransaction | explorer/handlers.go:65-114 | in a chain in order the lookup finds a transaction iff some block holds that hash, in the last such block, with its own receipt; its two other failure branches are dead |
| Node.Node.constructor | node/node.go:32-65 | chain, producer and server wired over one chain start in the genesis state |
| Node.Node.Perform | rpc/server.go:124-244 | any operation on the live objects is one step of the specified node, every component included |
| Node.RunNode | node/node.go:68-79 | for every run, the live node driven through it ends in exactly the state the specification gives that run |

## Left out

- Runs.NodeInvariant: fewer than 2^64 blocks and 2^64 invoices, because the block number and the id counter wrap there; the exact steps that break are in `ChainSpec.ProduceKeepsNumbersIff` and `GatewaySpec.CreateKeepsDense`.
- Anomalies.AnomalousIffConflict: where one purse cannot pay for both jobs, it leaves out jobs that in the end give to nobody; in this node those are payments below 40 wei whose merchant is the treasury, such as 20 wei from a purse of 30 beside a transfer of 20 from it. Uncovered jobs and jobs of no positive amount are left out too.
- NodeJobs.PaymentAndTransferIff: the record that the nonce step saves after an included transaction is not part of the payment's job.
- HTTP and JSON-RPC routing, event bus, websockets, loggers, CLI mains, the SDK's network calls: plumbing.
- LevelDB, JSON files, restart from a stored head: storage is a map that does not fail, and a run starts at genesis.
- `state/account.go` `ensureBalances`: the record always holds both balances, since every stored record was saved with both.
- Keccak, RLP, EIP-155 recovery, wallet key derivation: arbitrary functions of a `Crypto` record.
- float64 to wei conversion in mint, burn and USDCc sends, and other argument decoding: the integer amount is the input, negative ones included.
- A nil head, state, gateway or meta record, and the unused `fees` map of `state/state.go`: never reached after construction.
- Goroutine scheduling beyond two jobs: elsewhere handlers and block production are serial steps.
- `core/state/state.go` and `node/payment_gateway/payment_gateway.go`: older duplicates the chain does not use.
- `PaymentGateway.PaymentIntent` holds its amount as a value, so the copy of the `big.Int` inside a clone is not a separate object.
