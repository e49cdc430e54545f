# Verification of the Bitcoin wallet back end

A block scanner reads confirmed headers from a chain node, labels each transaction for each registered business, hands
one message per batch to a consumer over an unbuffered channel, and then records the blocks. The consumer writes
deposits, balances and flows of each business in one retried database transaction. This project models that pipeline,
the ledger arithmetic behind it and the clock that the loops are driven by, and proves what they keep.

| file | what it models |
|---|---|
| `BigInt.dfy`, `BatchBlock.dfy` | the window arithmetic with its machine integers, and the header cursor |
| `Classifier.dfy` | the triple loop that labels a transaction |
| `Synchronizer.dfy`, `CatchUp.dfy` | grouping per business, the tick with its retained batch, progress to the confirmed head |
| `Scanner.dfy`, `HandOver.dfy`, `ScannerShutdown.dfy` | loop goroutine, consumer and shutdown as a transition system; how often a height is handed over; when Close returns and when it can hang |
| `ScannerRefinement.dfy`, `GapExample.dfy`, `PersistedData.dfy` | the code as events in any order, with panics, crashes and shutdown, runs that system; ticks that lose a block; what the blocks table may claim about the wallets |
| `Balances.dfy`, `Deposits.dfy` | the balance ledger and the confirmation counter |
| `WalletHistory.dfy`, `DepositHistory.dfy`, `RestartExample.dfy` | the database as exactly what the history of deliveries makes of it; the deposits over a process; a restart that takes a confirmation back |
| `Retry.dfy`, `DepositWorker.dfy` | the retry loop, and the consumer of one message |
| `MessageOutcome.dfy`, `CloseOutcome.dfy` | which messages can be committed at all, and what Close does to the batch in hand |
| `ClockModel.dfy`, `ClockBehaviour.dfy`, `DeterministicClock.dfy`, `ClockRefinement.dfy` | the clock as a transition system; what every call does to every action; the classes; the proof that the classes play every sequence of calls as the transition system does |
| `Prelude.dfy` | options, results and facts about sequences |

Objects that the code updates in place are classes; their methods are proved equal to functions of the old state, and
the theorems are stated about those functions. The only prose about proofs is in the comments of the files.

## As written and as meant

In two places the code reads a database answer otherwise than the code around it assumes. Both readings are modelled, by
the parameter `Policy`.

* The query for a sender address reports a missing row as an error (`database/addresses.go:53`), and the classifier then
  leaves early (`worker/synchronizer.go:186`), although it goes on to compare the row with `nil`. `AsMeant` takes a
  missing row for "not one of ours" and propagates only faults; `AsWritten` leaves early in both cases. The early
  return also hands back an outer error that is nil, so the tick forgets the batch although nothing was stored.
* The confirmation query asks for the status `0` (`database/deposits.go:69`), while deposits are stored as `unsafe`.

Properties that turn out false of the code as written are stated with the input that shows it, or with the exact
condition under which they hold:

* no transaction can be labelled a deposit as written (`Classifier.AsWrittenNeedsKnownSenders`), and the two readings
  agree exactly when no sender is unknown or some query faults (`Classifier.ReadingsAgreeIff`);
* a dropped batch leaves a permanent gap in the blocks table: in any interleaving of the code's events the table is one
  interval exactly when no batch is inserted on top of stored blocks after a tick of the same process whose
  classification left early (`ScannerRefinement.EventsContiguousIff`); a payment by a stranger followed by a clean block
  is enough (`GapExample.StrangerLosesABlock`);
* a hot-wallet spend with change to itself can be labelled a withdrawal: the receiver is looked up in lower case
  (`database/addresses.go:39`) while addresses are stored as they are written (`services/handle.go:59-66`). With a hot
  address in the table it never happens exactly when the lower-cased look-up finds a hot or a cold wallet
  (`Classifier.HotChangeIff`); an address with a capital letter shows the failure
  (`Classifier.CapitalHotAddressWithdraws`);
* `Close` can hang as long as the loop has not exited, because the consumer may give up and the loop then offers a batch
  to nobody (`ScannerShutdown.CanHangIff`). Once it waits there it waits for ever (`ScannerShutdown.StuckForever`); after
  the loop has exited every schedule ends (`ScannerShutdown.CloseMustReturn`), and no run hangs in which the consumer
  does not give up before that (`ScannerShutdown.NoEarlyFailureNoHang`);
* `Close` cancels the resources before it awaits the consumer: with a healthy database, the batch in hand is handled
  exactly when every present business has a committing attempt before that, unless the loop waits in a send, which it
  cannot leave before that batch is handled (`CloseOutcome.CloseKeepsTheBatchIff`);
* movements carry no sender, so a collection or hot-to-cold transfer is debited from the empty address and a cold-to-hot
  transfer from its own receiver. Short of an overflow, the consumer survives a message exactly when each such output is
  covered by what its payer has locked (`MessageOutcome.ConsumerSurvivesIff`); otherwise nothing the node, the database
  or the retries do can commit it (`MessageOutcome.UnpayableStopsTheConsumer`). A payment of one coin from a user to the
  hot wallet is such a message (`MessageOutcome.SmallCollectionIsUnpayable`), and as long as nobody locks an amount for
  the empty address, no history makes one payable (`MessageOutcome.EmptyAddressNeverPays`);
* a failed block insert sends the batch again, and nothing recognises it: a stored height was handed over once more than
  its insert was interrupted (`HandOver.StoredHeightIsHandled`; a run is `HandOver.RestartHandsOverTwice`), and a message
  handled twice is stored and credited twice (`MessageOutcome.RepeatedMessageCountsTwice`);
* confirmations can go down: within a process, as long as the nodes show one chain, the heights of a business's messages
  never fall and its deposits are those of one confirmation (`DepositHistory.ProcessFuses`); but a process that is
  restarted may cut the same headers into a shorter window, and a deposit then loses a confirmation and is stored again
  (`RestartExample.RestartTakesBack`). A second confirmation takes confirmations back exactly when it is lower and the
  deposit is not final (`Deposits.LowerHeightTakesBackIff`);
* a debit replaces the balance by the locked amount minus the debit, so the total is kept only up to the slack that
  `Balances.AccountingIdentity` names, and a withdrawal takes exactly its amount only if the whole balance was locked
  (`Balances.WithdrawalIsExactIff`);
* no confirmation is ever counted as written (`Deposits.AsWrittenConfirmsNothing`), and the eight-bit threshold is the
  configured one exactly up to 255 (`Deposits.ThresholdIsConfiguredIff`);
* a window of zero, which the configuration default rules out, would fetch two headers
  (`SyncClient.ZeroWindowFetchesTwo`);
* the backoff of the worker is written in nanoseconds and is flat at its cap (`Retry.WorkerBackoffIsFlat`).

## Model

| member | source | states |
|---|---|---|
| BigInt.ClampExact | common/bigint/bigint.go:13-22 | the window end is min(end, start + size - 1) if and only if the distance is below the size, or the size is at most 2^63 and below the 64-bit count; a count that wraps to more than the size does no harm |
| BigInt.ClampOnHeights | common/bigint/bigint.go:13-22 | between heights that an int64 holds the window end is right for every positive size, even sizes beyond int64 |
| SyncClient.PlanIsNextWindow | rpcclient/syncclient/batch_block.go:52-69 | the planned window starts after the cursor, holds 1 to maxSize heights and ends at min(next + maxSize - 1, latest - depth); "ahead" iff latest - depth is not negative and the cursor is past it |
| SyncClient.ZeroWindowFetchesTwo | config/config.go:80-82 | without the default for the window size, a zero window would ask for two headers |
| SyncClient.OneFailureFailsAll | rpcclient/syncclient/batch_block.go:71-79 | one height the node cannot serve, anywhere in the window, fails the whole request |
| SyncClient.FetchAllSucceeds | rpcclient/syncclient/batch_block.go:71-79 | when every height of the window is served, the request succeeds with the node's own headers |
| SyncClient.FetchedNumbers | rpcclient/syncclient/batch_block.go:70-79 | from an honest node the fetched numbers are exactly the consecutive heights of the window |
| SyncClient.FetchedAre | rpcclient/syncclient/batch_block.go:71-79 | the i-th header is the node's header for the i-th height of the window |
| SyncClient.ReplyErrors | rpcclient/syncclient/batch_block.go:44-51 | an unreported head and a failed query are told apart: the latter iff the head query fails or some height of the window is not served |
| SyncClient.ReplyIsNextHeights | rpcclient/syncclient/batch_block.go:43-88 | a reply with headers holds exactly the heights last + 1 to min(last + maxSize, latest - depth), and the cursor ends on the last of them |
| SyncClient.ReplyWithoutHeaders | rpcclient/syncclient/batch_block.go:43-63 | when the reply is empty, when it is "ahead of provider", both as equivalences, and that the cursor then stays |
| SyncClient.BatchBlock.constructor | rpcclient/syncclient/batch_block.go:27-33 | the cursor starts at the given header |
| SyncClient.BatchBlock.FetchHeaders | rpcclient/syncclient/batch_block.go:70-79 | the request loop computes the all-or-nothing fetch that the lemmas above describe |
| SyncClient.BatchBlock.NextHeaders | rpcclient/syncclient/batch_block.go:43-88 | reply, cursor and newest header after the call, on every path including a failure midway through the loop |
| Classifier.JoinSplit | worker/synchronizer.go:183 | splitting at the separator loses nothing: joining the pieces gives the text back |
| Classifier.ScanAddresses | worker/synchronizer.go:184-205 | the loop over the addresses of one input equals the existential scan, including where it stops |
| Classifier.ScanInputs | worker/synchronizer.go:175-206 | the loop over the inputs equals one scan of all sender addresses |
| Classifier.Classify | worker/synchronizer.go:147-227 | the triple loop equals the loop-free specification whose label the next two rows determine |
| Classifier.LabelIs | worker/synchronizer.go:190-227 | one equivalence per label, in terms of the outputs' addresses and the pieces of the inputs' addresses: cold2hot iff a hot address is paid and the cold wallet is among the senders; hot2cold iff not that, a cold address is paid and the hot wallet sends; and so on through collection, withdraw, deposit and unknown |
| Classifier.NoLabelIff | worker/synchronizer.go:164-189 | when a transaction gets no label: an early return for a hot-wallet fault or an unanswered sender, a panic only through a wallet that is not registered |
| Classifier.LookupsAre | database/addresses.go:37-59 | receivers are found by their lower-cased address and a fault counts as not existing; senders are found as written, with faults and missing rows told apart |
| Classifier.SenderOfSomeInput | worker/synchronizer.go:175-184 | an address is a sender iff it is a piece of the address field of some input |
| Classifier.OrderIsIrrelevant | worker/synchronizer.go:163-227 | the label is a function of the set of receivers and the set of senders |
| Classifier.PermutationKeepsLabel | worker/synchronizer.go:163-227 | permuting outputs, inputs and the addresses within an input keeps the label |
| Classifier.HotChangeIff | worker/synchronizer.go:193-227 | over all transactions, a hot-wallet spend with change to itself is never labelled withdraw if and only if the address table lets the change be seen; for a hot address in the table: iff the lower-cased look-up finds a hot or a cold wallet |
| Classifier.UnseenChange | database/addresses.go:37-47 | otherwise there is a transaction that is labelled withdraw |
| Classifier.CapitalHotAddressWithdraws | database/addresses.go:39-45 | the failing input: a hot address with a capital letter, spent with change to itself, is labelled withdraw under both readings |
| Classifier.HotChangeIsNoWithdrawal | worker/synchronizer.go:193-227 | change to any address that the look-up finds as hot makes a hot-wallet spend collection, hot2cold or cold2hot |
| Classifier.AsWrittenNeedsKnownSenders | worker/synchronizer.go:185-192 | as written a transaction is labelled iff every sender is an address of ours, and never as a deposit |
| Classifier.ReadingsAgreeIff | database/addresses.go:49-59 | the two readings of a missing row agree iff no sender is unknown or some sender query faults |
| Synchronizer.ClassifyBlock | worker/synchronizer.go:138-229 | the loop over a block's transactions yields the labelled items in order, or the first obstacle |
| Synchronizer.ItemsAre | worker/synchronizer.go:140-160 | each record field by field: business, block height, the transaction's own hash and fee, its label, no inputs, and every output's address, index modulo 256 and amount |
| Synchronizer.TxsStopIs | worker/synchronizer.go:139-229 | a block goes through iff all its transactions are labelled; otherwise the first one that is not decides how it stops |
| Synchronizer.ListedOnce | worker/synchronizer.go:137-229 | a business that is listed once gets the items of a block once, in the order of the block |
| Synchronizer.BaseSynchronizer.GatherBlock | worker/synchronizer.go:128-241 | one header: node and business queries, then the contribution of each business |
| Synchronizer.BaseSynchronizer.GatherBatch | worker/synchronizer.go:116-242 | the loop over headers builds the message, or stops where and why the first header stops it |
| Synchronizer.HeadersGoIff | worker/synchronizer.go:119-242 | a batch goes through iff the node shows every block, the business list is read, and every transaction is labelled for every business |
| Synchronizer.HeadersStopIs | worker/synchronizer.go:128-136 | otherwise the first header that does not pass decides: an error iff the node does not show it or the business list is not read, else the first of its businesses that stops |
| Synchronizer.BlockAddsItsStream | worker/synchronizer.go:230-240 | grouping one block appends exactly the block's stream to each business, and sets the height iff it contributes |
| Synchronizer.CollectIsStream | worker/synchronizer.go:116-242 | a message holds a business iff its stream over the headers is not empty, and then that stream and the height of the last contributing header |
| Synchronizer.StreamSplits | worker/synchronizer.go:119-242 | the stream over h1 + h2 is the stream over h1 then over h2, with the later contribution's height |
| Synchronizer.BatchSplits | worker/synchronizer.go:116-242 | one batch over h1 + h2 gives each business what two batches give it together, with the right height |
| Synchronizer.WindowSizeIsInvisible | worker/synchronizer.go:116-242 | however the headers are cut into windows, a business receives the same transactions in the same order |
| Synchronizer.BaseSynchronizer.constructor | worker/deposit.go:59-66 | a scanner starts with nothing retained and the cursor of its header source |
| Synchronizer.BaseSynchronizer.ProcessBatch | worker/synchronizer.go:110-253 | nothing for an empty batch; else send then store, or stop before the send, with the result the tick sees |
| Synchronizer.TableKeepsItsKeys | migrations/00001_create_schema.sql:28-32 | no height is stored twice and none is zero; the table grows by the whole batch iff the batch was handed over, the database did not fault and every height is new and positive |
| Synchronizer.BaseSynchronizer.Tick | worker/synchronizer.go:86-103 | cursor, retained batch, blocks table and delivered messages after one tick |
| Synchronizer.BatchIsForgottenIff | worker/synchronizer.go:98-102 | a tick forgets a batch without storing it iff classification left early as written; otherwise it keeps the batch, or has stored all of it |
| CatchUp.FetchAdvances | rpcclient/syncclient/batch_block.go:56-87 | below the confirmed head a tick fetches a full window or all that is left |
| CatchUp.BatchStores | worker/synchronizer.go:243-252 | processing a batch of new heights stores exactly those heights |
| CatchUp.TickAdvances | worker/synchronizer.go:86-103 | with a serving node a tick moves the cursor to min(last + maxSize, confirmed head) and stores exactly the heights between |
| CatchUp.TicksAdvance | worker/synchronizer.go:86-103 | after k ticks the scanner is k windows further or at the head, with no height left out |
| CatchUp.CatchesUpExactly | worker/synchronizer.go:86-103 | the scanner is at the confirmed head after k ticks iff k >= ceil((latest - depth - last) / maxSize), hence stays there |
| Scanner.InvStep | worker/synchronizer.go:67-103 | every step of loop, consumer, shutdown or restart keeps the invariant of heights, deliveries, shutdown and data |
| Scanner.InvRun | worker/deposit.go:81-109 | the invariant holds over every interleaving with any failures, crashes and restarts |
| Scanner.ContiguousIff | worker/synchronizer.go:86-103 | over every run of protocol steps, whatever causes a drop, the stored heights are one interval iff no insert on top of stored blocks followed a dropped batch of the same process |
| Scanner.NoDropNoGap | worker/synchronizer.go:98-102 | a run that never drops a batch has no such insert |
| Scanner.NothingIsSkipped | worker/synchronizer.go:86-103 | with faults propagated: one interval without repeats, and the retained batch is exactly from above the stored maximum (or origin) up to the cursor |
| Scanner.DropThenStoreBreaks | worker/synchronizer.go:98-102 | an insert on top of stored blocks after a drop breaks the interval, and no later step, crash or restart repairs it |
| Scanner.DropIsReachable | worker/synchronizer.go:98-102 | if the protocol may drop, every resting scanner with stored blocks can reach a gap; the node answers that cause a drop are GapExample's |
| Scanner.BatchGoesThrough | worker/synchronizer.go:243-251 | a classified batch can always be taken, handled and stored or refused, with the stated effect |
| Scanner.StoredIsHandled | worker/deposit.go:98-107 | within a process, a stored height is completely handled or lies in the one batch in the consumer's hands |
| Scanner.LossIsOneBatchPerRestart | worker/deposit.go:30-55 | across crashes, a stored but unhandled height lies in the batch in hand, or in one of at most as many abandoned batches as there were restarts, each at most a window |
| ScannerShutdown.CloseIsOrderly | common/clock/loop.go:20-44 | no run sends on a closed channel; after the close the loop has exited and every completed send was received in order; a finished consumer handled all of them, a failed one all but the last |
| ScannerShutdown.StuckForever | worker/synchronizer.go:243-245 | an offer to a consumer that gave up is never taken and the shutdown never completes |
| ScannerShutdown.TowardsDoneWorks | common/clock/loop.go:20-44 | in every other state some step leads closer to a completed shutdown |
| ScannerShutdown.FinishFrom | worker/deposit.go:81-91 | so a run to the completed shutdown exists |
| ScannerShutdown.CanFinishIff | worker/deposit.go:81-91 | some schedule completes the shutdown iff the loop is not yet offering to a consumer that gave up |
| ScannerShutdown.CanHangIff | worker/deposit.go:81-109 | a schedule that hangs for ever exists iff the loop has not exited, whatever consumer and closer have done so far |
| ScannerShutdown.ExitedStepFinishes | common/clock/loop.go:20-27 | after the loop has exited every step leads closer to a completed shutdown |
| ScannerShutdown.CloseMustReturn | common/clock/loop.go:20-27 | from then on every run is bounded, and a run that cannot go on has completed the shutdown |
| ScannerShutdown.NoEarlyFailureNoHang | worker/deposit.go:98-107 | no run hangs in which the consumer does not give up before the loop exits, across restarts |
| ScannerShutdown.OfferedCloseHandles | common/clock/loop.go:20-27 | while the loop waits in a send, no run closes the channel before the batch in hand is handled |
| HandOver.HandOversAreInserts | worker/synchronizer.go:243-251 | over every run, hand-overs of a height equal its inserts plus the hand-overs whose insert failed or whose process ended before it |
| HandOver.HandOversAreHandled | worker/deposit.go:98-107 | over every run, hand-overs of a height equal its successful handlings plus the failed and the abandoned ones |
| HandOver.StoredHeightIsHandled | worker/synchronizer.go:243-251 | a stored height was handed over exactly once iff no insert failed and no process ended between a hand-over of it and the insert; and when it was handled exactly once |
| HandOver.RestartHandsOverTwice | worker/synchronizer.go:246-250 | a run of the protocol in which a stored height is handed over and handled twice: an insert fails, the process restarts, and a shorter window comes |
| ScannerRefinement.FetchIsBegin | worker/synchronizer.go:87-98 | the fetch half of a tick is the first protocol step |
| ScannerRefinement.Newest | database/blocks.go:47-57 | the resume point is a stored block, and none is higher |
| ScannerRefinement.TickIsThreeEvents | worker/synchronizer.go:86-103 | a tick up to its send, the hand-over and the insert, with nothing in between, are the tick of the code |
| ScannerRefinement.TickIsARun | worker/synchronizer.go:86-242 | a tick up to its send is a run of the protocol: it offers the batch, keeps it after an error, drops it exactly by the early return as written, or ends the process with a panic |
| ScannerRefinement.TakeIsARun | worker/synchronizer.go:244 | the hand-over is the protocol's, whenever it happens |
| ScannerRefinement.InsertIsARun | worker/synchronizer.go:246-250 | the return of the send and the insert are the protocol's, whatever the consumer does meanwhile |
| ScannerRefinement.HandleIsARun | worker/deposit.go:100-105 | the end of handleBatch is the protocol's, whatever the loop and Close do meanwhile |
| ScannerRefinement.ShutIsARun | common/clock/loop.go:20-44 | a step of the shutdown happens exactly when the protocol enables it |
| ScannerRefinement.CrashIsARun | worker/deposit.go:30-55 | the end of the process at any point, handleBatch half-way included, and the resume of the next one are the protocol's restart |
| ScannerRefinement.EventIsARun | worker/synchronizer.go:86-103 | every event is a run of the protocol; it drops a batch iff the tick left early as written, and opens a gap iff it inserts on top of stored blocks after such a drop |
| ScannerRefinement.EventsAreARun | worker/synchronizer.go:86-103 | so is every sequence of events over restarting processes, with ticks, handling and shutdown overlapping, each with its own node, database and cancellation |
| ScannerRefinement.EventsContiguousIff | worker/synchronizer.go:98-102 | in every interleaving the stored heights are one interval iff no batch is inserted on top of stored blocks after a dropping tick of the same process |
| ScannerRefinement.EventsKeepTheInterval | worker/synchronizer.go:86-103 | with faults propagated, in every interleaving with any failures, panics, crashes and shutdowns: one interval, and retained headers exactly from above it, or from the origin, up to the cursor |
| GapExample.DropThenStore | worker/synchronizer.go:185-189 | a dropping tick, any events that neither store nor end the process, and an insert, in any process with stored blocks, leave a gap |
| GapExample.StrangerQuits | database/addresses.go:52-55 | a payment by an unknown sender makes the classification of its block leave early |
| GapExample.StrangerLosesABlock | worker/synchronizer.go:98-102 | the failing input: three blocks, the second with a payment by a stranger, end as a table of blocks 1 and 3 |
| PersistedData.HandlePersists | worker/deposit.go:232-239 | handleBatch only adds flows, and when it returns nil it has added those of every transaction of the message |
| PersistedData.MessagePersistsBlock | worker/synchronizer.go:119-242 | when the flows of a collected message are in the wallets, so is, for each of its blocks and each listed business, every transaction the node showed |
| PersistedData.EventsFailOnce | worker/deposit.go:100-105 | in every interleaving, failed deliveries are at most one per process that ended, and one if the present consumer gave up |
| PersistedData.StoredIsPersisted | worker/synchronizer.go:243-251 | every stored block was handed over; after every successful delivery of it, which comes from a tick of the history and was handled for a business list that handleBatch read, each transaction that the node of that tick showed in the block has its labelled flow in the wallet of each listed business; and the bound on failed deliveries |
| WalletHistory.HandleCommits | worker/deposit.go:111-271 | handleBatch commits exactly the entries of the list that it got past, in list order, and returns nil iff it got past all |
| WalletHistory.DatabaseIsItsHistory | worker/deposit.go:98-109 | from any state and in any interleaving, the database is exactly what the new deliveries of the history lead to, failed and abandoned ones included as far as they were committed |
| WalletHistory.CommitIsBodies | worker/deposit.go:117-269 | one business's wallet after a list of entries is its message applied once for each of its entries |
| WalletHistory.BodiesAre | worker/deposit.go:195-249 | a wallet after messages, table by table: replayed deposits, applied legs, appended flows and inputs |
| WalletHistory.WalletIsItsHistory | worker/deposit.go:98-109 | over any events, a business's flows and inputs are those before, followed by those of its messages in the order of the history, once per committed entry; its balances and deposits are what the same messages make of them |
| WalletHistory.WalletGainsItsTransactions | worker/deposit.go:98-109 | over any events, a wallet's new inputs are exactly the outputs of its messages' transactions, and its new flows exactly one for each, in the order of the history |
| Balances.LegEffect | database/balances.go:102-105 | one saved row, seen from any address: its new balance, all locks kept, the row created if missing |
| Balances.AppliesIff | database/balances.go:93-197 | a list is applied without an error iff every balance it writes, in closed form, is in the column's range; no other assumption |
| Balances.CoveredIff | database/balances.go:116-181 | short of an overflow, a list is applied without an error iff no debit exceeds what its address has locked |
| Balances.UncoveredDebitFails | database/balances.go:116-121 | a debit above what its address has locked fails the whole list, wherever it stands |
| Balances.AddressClosedForm | database/balances.go:93-197 | final balance of an address: initial plus all credits if never debited, else lock minus the last debit plus the later credits; locks kept; exactly the mentioned rows appear, missing ones from (0, 0) |
| Balances.MovementEffect | database/balances.go:96-194 | each of the five branches told by its from and to addresses: who gains and whose lock is settled |
| Balances.AccountingIdentity | database/balances.go:93-197 | the total changes by deposits minus withdrawals plus, for every debit, lock minus balance of its row just before |
| Balances.TransfersCancel | database/balances.go:122-194 | the two legs of collection, hot2cold and cold2hot cancel |
| Balances.InternalTransfersConserve | database/balances.go:122-194 | internal transfers keep the total when every debited row has its whole balance locked |
| Balances.RowsStay | database/balances.go:68-91 | rows are never removed, reordered or retyped; unmentioned rows are untouched, even when the call fails midway |
| Balances.CreatedRowIs | database/balances.go:71-87 | a row that a list creates, even one that fails later, is new, locks nothing, and has the type of the first leg on its address |
| Balances.MovementCreates | database/balances.go:96-194 | branch by branch, whose rows are created and of which type: user for a deposit's receiver and a collection's payer, hot for a withdrawal's payer, and so on |
| Balances.ColumnIsWord | migrations/00001_create_schema.sql:4-6 | a value fits the column iff it is from 0 up to, not including, 2^256 |
| Balances.LocksClosedForm | database/balances.go:48-66 | UpdateBalances applies exactly the longest prefix of known addresses: sums leave the balance, the last lock stays |
| Balances.LocksApplyIff | database/balances.go:48-66 | UpdateBalances succeeds iff every lock up to the first unknown address is an amount the column holds and leaves a balance the column holds |
| Balances.OneLockIff | database/balances.go:58-63 | a single lock of a known address goes through iff it is between nothing and the whole balance, and then takes exactly that |
| Balances.LockThenSettle | database/balances.go:48-197 | lock then settle: a debited address ends with its last lock minus its last debit plus later credits, whatever its balance was |
| Balances.WithdrawalIsExactIff | database/balances.go:110-121 | a withdrawal after a lock takes exactly its amount off the balance iff the whole balance was locked |
| Balances.BalancesDB.QueryWalletBalanceByAddress | database/balances.go:68-91 | the row of the address, created empty at the end when missing |
| Balances.BalancesDB.Save | migrations/00001_create_schema.sql:4-10 | a row is written iff its columns are in the UINT256 range |
| Balances.BalancesDB.Move | database/balances.go:94-194 | the branch for one movement applies its legs in order, up to the first refused save |
| Balances.BalancesDB.UpdateOrCreate | database/balances.go:93-197 | the loop applies the legs of the whole list in order, up to the first refused save |
| Balances.BalancesDB.UpdateBalances | database/balances.go:48-66 | for addresses that are not empty, the loop locks in order and ends without an error at the first unknown one |
| Deposits.ConfirmIsExact | database/deposits.go:76-83 | no wrap or truncation up to threshold 255: confirms = min(height - block, threshold), finalized iff that deep |
| Deposits.ConfirmFuses | database/deposits.go:67-90 | two calls at rising heights, with rows stored between, equal one call at the later height |
| Deposits.HistoryFuses | worker/deposit.go:196-209 | any history of storing and confirming at nondecreasing heights equals one call at the last height |
| Deposits.HistoryConfirms | worker/deposit.go:206 | what every deposit of such a history ends with: min(h - b, c) confirms, finalized iff h - b >= c, untouched iff above h |
| DepositHistory.EventsDeliverInOrder | worker/synchronizer.go:86-103 | in every interleaving the windows of headers that a process hands over are ascending, and each repeats the one before or lies above it |
| DepositHistory.MessageHeight | worker/synchronizer.go:230-240 | the height of a message is that of the last block with a transaction, whatever the business list and the address books are |
| DepositHistory.HeightsNeverFall | worker/synchronizer.go:230-240 | within a process whose nodes show one chain, the heights of a business's messages never fall, whatever the business lists, address books, faults and repetitions are |
| DepositHistory.ProcessFuses | worker/deposit.go:196-209 | so the deposits that the events of a process leave in a wallet are those before and the stored ones after one confirmation at the height of the last message |
| DepositHistory.FirstProcessStarts | worker/deposit.go:30-79 | the first process meets the condition of that result |
| DepositHistory.NextProcessStarts | worker/deposit.go:36-55 | and so does every process that follows a crash, with whatever is stored by then |
| RestartExample.RestartTakesBack | worker/deposit.go:38-40 | the failing input: blocks 1 and 2 are handled, the insert fails, the process ends, block 1 comes by itself; its deposit goes from one confirmation to none and is stored twice |
| Deposits.LowerHeightTakesBackIff | database/deposits.go:76-83 | a second confirmation takes confirmations back iff it is at a lower height that still selects the deposit, and the first did not make it final |
| Deposits.AsWrittenConfirmsNothing | database/deposits.go:69 | with the status compared to 0, no call of any history changes the table |
| Deposits.ThresholdIsConfiguredIff | worker/deposit.go:72 | confirming with the eight-bit threshold finalizes every deposit exactly at the configured depth iff the configured threshold is at most 255 |
| Deposits.ThresholdWraps | worker/deposit.go:72 | thresholds that differ by 256 act alike, so one of 256 finalizes a deposit as soon as its own block is handled |
| Deposits.DepositsDB.StoreDeposits | database/deposits.go:45-52 | rows are appended in order |
| Deposits.DepositsDB.Query | database/deposits.go:69 | the query finds exactly the selected rows, once each |
| Deposits.DepositsDB.UpdateDepositsComfirms | database/deposits.go:67-90 | the loop over the found rows confirms every selected row and no other |
| Retry.BackoffIsMonotoneAndCapped | common/retry/strategies.go:19-36 | the base wait never falls with the attempt, and no wait exceeds Max + MaxJitter |
| Retry.WaitIs | common/retry/strategies.go:19-36 | the wait written out: min(Min + 2^attempt seconds, Max) plus the jitter, or Min plus the jitter before the first attempt |
| Retry.Pauses | common/retry/operation.go:51-53 | the i-th sleep is the wait of attempt i |
| Retry.WorkerBackoffIsFlat | worker/deposit.go:193 | the worker's strategy waits its cap of 20 microseconds before every attempt |
| DepositWorker.WorkerPauses | worker/deposit.go:193-194 | the worker has ten attempts, and each of its pauses is at least 20 and less than 20.25 microseconds |
| Retry.PausesAreBounded | common/retry/operation.go:43-54 | n sleeps take at most n times (Max + MaxJitter) |
| Retry.Store.Transaction | database/db.go:85-104 | given the state its body arrives at, the transaction takes that state over completely, or leaves the old one |
| Retry.Do | common/retry/operation.go:36-59 | nil iff exactly one commit, an error iff none; which error; and exactly which sleeps |
| Retry.CommitsIff | common/retry/operation.go:43-50 | the transaction commits iff its body succeeds and some attempt is fault-free before any cancellation |
| DepositWorker.HandleVin | worker/deposit.go:477-507 | one spendable row per output; one movement per output, without sender, for the four types that move balances |
| DepositWorker.VinsOf | worker/deposit.go:480-493 | for each output one row with its address, the transaction's hash, its index and its amount |
| DepositWorker.MovementsOf | worker/deposit.go:494-503 | for each output of a deposit, collection, hot2cold or cold2hot one movement without sender, to its address, of its amount; none for other labels |
| DepositWorker.DepositsOf | worker/deposit.go:289-297 | one row with block number, hash, no confirmations and status unsafe for a deposit, none for any other label |
| DepositWorker.Gather | worker/deposit.go:139-178 | the flows, inputs, movements and deposits accumulated by the loop over the transactions |
| DepositWorker.AccumulateIs | worker/deposit.go:139-178 | the accumulators hold one flow for each transaction, with its height, hash and label, and the rows, movements and deposits of the transactions one after the other |
| DepositWorker.RunBody | worker/deposit.go:195-244 | deposits, confirmations, balances, flows and inputs after the transaction body, or failure iff a balance leaves its range |
| DepositWorker.BodyKeepsLocks | worker/deposit.go:210-215 | the body keeps locked amounts in the range of their column |
| DepositWorker.CollectedBatchFits | worker/synchronizer.go:233-237 | the heights of every message of the scanner fit the consumer's 64 bits |
| DepositWorker.PersistBusiness | worker/deposit.go:194-268 | one business commits once or not at all, and commits iff its body succeeds and some attempt goes through |
| DepositWorker.HandleBusiness | worker/deposit.go:117-269 | one entry of the list: skipped when absent, refused when a lookup fails, else persisted |
| DepositWorker.HandleBatch | worker/deposit.go:111-271 | result and database as the forward recursion says; exactly a prefix of the present businesses is committed, each once; an error names the first that could not be |
| MessageOutcome.AllowedIs | worker/deposit.go:139-145 | the outside lets a business through iff the node answered for all its transactions and some attempt is free of faults before any cancellation |
| MessageOutcome.HandlesIff | worker/deposit.go:111-271 | handleBatch returns nil iff the list is read, every present business is let through and every body succeeds; and then leaves the database all of them lead to |
| MessageOutcome.OneFailureFailsTheList | worker/deposit.go:117-269 | one business that cannot be committed fails the list, wherever and however often it is listed |
| MessageOutcome.CommitAllIff | worker/deposit.go:117-269 | with each business listed once, the list commits iff each present business would by itself |
| MessageOutcome.MessageCommitsIff | worker/deposit.go:494-502 | short of an overflow, a message can be committed iff every output of a collection, hot2cold or cold2hot is covered by what its payer has locked |
| MessageOutcome.UncoveredOutputFails | worker/deposit.go:494-502 | an uncovered output makes the message impossible to commit, overflow or not |
| MessageOutcome.ItemsCarryNoInputs | worker/synchronizer.go:140-182 | the inputs gathered by the loops are never attached to the record |
| MessageOutcome.StreamItems | worker/synchronizer.go:119-242 | what a business receives is exactly the labelled transactions under the headers |
| MessageOutcome.ScannedMessageCommitsIff | worker/synchronizer.go:110-244 | from the chain to the database, short of an overflow: what the scanner collects for a business can be committed iff every transaction under the headers is payable |
| MessageOutcome.UnpayableStopsTheConsumer | worker/deposit.go:98-107 | one transaction that is not payable, in any header of any batch and any business list, ends handleBatch in an error in every environment |
| MessageOutcome.ConsumerSurvivesIff | worker/deposit.go:98-107 | when the outside lets every business through and nothing overflows, the consumer survives a scanned message iff every transaction is payable for every business |
| MessageOutcome.SmallCollectionIsUnpayable | worker/synchronizer.go:193-219 | the failing input: one coin from a user to the hot wallet is a collection that is not payable, under both readings |
| MessageOutcome.DeedsKeepLock | database/balances.go:48-197 | over any history of handled messages and of locks for other addresses, what an address has locked stays |
| MessageOutcome.EmptyAddressNeverPays | worker/deposit.go:494-502 | over any history that never locks an amount for the empty address, no message with a positive output of a collection or hot2cold transfer is ever committed |
| MessageOutcome.RepeatedMessageCountsTwice | worker/deposit.go:195-249 | a message handled twice stores its rows twice, and an address that is only credited gains twice |
| CloseOutcome.HandleIsStep | worker/deposit.go:100-105 | the outcome of handleBatch is the consumer's step: it ranges on, with the heights handled, iff handleBatch returns nil |
| CloseOutcome.CancelDecides | common/retry/operation.go:43-50 | with a healthy database, a batch is handled iff every present business has a committing attempt before the cancellation; without faults, iff no present business comes after it |
| CloseOutcome.CloseKeepsTheBatchIff | worker/deposit.go:81-91 | Close with a batch in hand: wherever the loop is, short of waiting in a send, some schedule returns, and in it the batch is handled iff every present business commits before the resources are cancelled; while the loop waits in a send, every run that closes the channel has handled the batch |
| ClockModel.FiredActFits | common/clock/deterministic.go:26-116 | firing a due pending action blocks on no send and keeps the action's invariant |
| ClockModel.InvStep | common/clock/deterministic.go:119-246 | every call keeps the clock's invariant |
| ClockModel.NeverBlocks | common/clock/deterministic.go:235-246 | over every sequence of calls, each unconditional send finds a free slot of an open channel |
| ClockModel.FiringsAreOnTime | common/clock/deterministic.go:22-55 | no action fires before it is due, and a one-shot fires at most once |
| ClockModel.BufferHoldsFiringTime | common/clock/deterministic.go:104-117 | an unread value is the clock's time at the action's latest firing |
| ClockModel.RunExcludesStop | common/clock/deterministic.go:47-67 | for one timer the run flag and a Stop that returned true exclude each other |
| ClockBehaviour.CallbackRunsOnce | common/clock/deterministic.go:47-67 | over every sequence of calls, the function of a timer runs at most once, the run flag tells whether it did, and it never ran if some Stop returned true |
| ClockBehaviour.SendExcludesStop | common/clock/deterministic.go:47-67 | the same for a timer with a channel |
| ClockBehaviour.StopAnswersIff | common/clock/deterministic.go:61-67 | Stop answers true iff the timer has not fired and no earlier call has stopped it |
| ClockBehaviour.StoppedIff | common/clock/deterministic.go:61-67 | an action is stopped iff an earlier call has stopped it |
| ClockBehaviour.StoppedStaysSilent | common/clock/deterministic.go:104-109 | no call makes a stopped timer or ticker fire, not even after a Reset |
| ClockBehaviour.AdvanceFires | common/clock/deterministic.go:235-246 | AdvanceTime fires exactly the actions that are due, not stopped and have a firing to come, with the new time in the channel, one more run of a callback, and a ticker's next due time; all others are left alone |
| ClockBehaviour.VisitedFires | common/clock/deterministic.go:240-244 | a visited action fires unless it was stopped or its tick is unread, and what changes was visited |
| ClockBehaviour.CreationRecords | common/clock/deterministic.go:147-202 | the four calls that make an action: due at now plus the argument, fired on the spot or scheduled behind the rest, refused for a ticker without a positive period; no other action notices |
| ClockBehaviour.TouchRecords | common/clock/deterministic.go:61-96 | Reset arms a ticker with its argument from now on; Stop and a receive change one flag or slot; no other action notices |
| ClockModel.TicksAreSpaced | common/clock/deterministic.go:104-117 | in a spaced history, firings after event i and without a reset come at least a period after it |
| ClockModel.TickerSpacing | common/clock/deterministic.go:88-117 | ticks of any run come at least one positive period after the tick, creation or Reset before them |
| ClockModel.PeriodBetweenTicks | common/clock/deterministic.go:88-117 | written out: between an event of a ticker and any later tick without a reset between lies at least the period of the creation or Reset before them |
| ClockModel.OneTickPerAdvance | common/clock/deterministic.go:235-246 | one AdvanceTime publishes at most one tick per ticker, carrying the new time |
| ClockModel.AdvanceLeavesTheFuture | common/clock/deterministic.go:235-246 | what is pending afterwards is strictly in the future or a running ticker with an unread tick |
| ClockModel.AdvanceKeepsOrder | common/clock/deterministic.go:239-245 | exactly the due actions are visited, in insertion order, and exactly the survivors stay, in theirs |
| DeterministicClocks.Task.Fire | common/clock/deterministic.go:26-30 | the send finds a free slot of an open channel, which is then closed |
| DeterministicClocks.Timer.Fire | common/clock/deterministic.go:47-55 | the function runs iff the timer was not stopped |
| DeterministicClocks.Timer.Stop | common/clock/deterministic.go:61-67 | true iff neither stopped nor run before |
| DeterministicClocks.Ticker.Fire | common/clock/deterministic.go:104-117 | the due time moves iff the tick is published; a stopped ticker is not kept |
| DeterministicClocks.Ticker.Reset | common/clock/deterministic.go:88-96 | panics iff the period is not positive, and then changes nothing |
| DeterministicClocks.DeterministicClock.After | common/clock/deterministic.go:147-158 | fires on the spot for a zero delay, is scheduled last otherwise |
| DeterministicClocks.DeterministicClock.AfterFunc | common/clock/deterministic.go:160-170 | runs on the spot for a zero delay, is scheduled last otherwise |
| DeterministicClocks.DeterministicClock.NewTimer | common/clock/deterministic.go:189-202 | is scheduled last, whatever the delay |
| DeterministicClocks.DeterministicClock.NewTicker | common/clock/deterministic.go:172-187 | refused iff the period is not positive |
| DeterministicClocks.DeterministicClock.FireAll | common/clock/deterministic.go:239-245 | the loop fires exactly the due actions, in order, and keeps exactly the survivors |
| DeterministicClocks.DeterministicClock.AdvanceTime | common/clock/deterministic.go:235-246 | time, every pending object, the visits and the pending list afterwards; no send blocks |
| DeterministicClocks.AdvancingClock.OnTick | common/clock/advancing.go:62-72 | a later tick advances the clock by the difference, a stale one does nothing |
| DeterministicClocks.NoDrift | common/clock/advancing.go:35-72 | over every mix of start, stop, ticks and explicit advances, elapsed clock time is elapsed tick time plus the explicit advances, and the last tick never falls |
| DeterministicClocks.Drive | common/clock/advancing.go:35-72 | the objects obey that law under every such mix |
| ClockRefinement.KeptIsSurvivors | common/clock/deterministic.go:239-245 | keeping and firing objects corresponds to keeping and firing their positions in the model |
| ClockRefinement.AgreeingIsValid | common/clock/deterministic.go:119-124 | objects that agree with a reachable model state are pairwise distinct and cannot block |
| ClockRefinement.AdvanceSimulates | common/clock/deterministic.go:235-246 | AdvanceTime on the objects is the model's step, also for the actions that are no longer pending |
| ClockRefinement.Perform | common/clock/deterministic.go:61-246 | every call on the objects is the model's step |
| ClockRefinement.Play | common/clock/deterministic.go:128-246 | a new clock under any sequence of calls ends as the model's run says, so the ClockModel theorems hold of the objects |

## Left out

- The chain node is a function from heights to headers and blocks that may fail; the gRPC client, protobuf messages and the signing client are not part of this model. `GetTransactionByHash` is a stub that returns nil where its caller reads a field (`worker/deposit.go:141-147`); it is modelled as a lookup that succeeds or fails.
- Reorganisations and hash links: the header source checks neither, so blocks are compared by height only; the uniqueness of hashes in the blocks table and its check on timestamps are left out.
- SQL and gorm: tables are sequences or maps, an insert or a transaction is atomic. A commit that takes effect and still reports an error is not modelled. The `status` columns are integers in the schema while the code writes texts; the model follows the code.
- Synchronizer.BaseSynchronizer.ProcessBatch: what the node and the address table answer is fixed while one batch is processed, and may differ arbitrarily from batch to batch.
- Retry.Store.Transaction: the writes of a body are made on copies that are dropped when it fails, so rollback is not modelled as undoing them one by one.
- DepositWorker.Gather: child transactions, withdrawals, internal transfers and outputs are not accumulated.
- ScannerRefinement.EventsAreARun: the reads of one tick, and the statements of one handleBatch, are one event each; a crash inside handleBatch keeps the businesses committed so far.
- Scanner.InvRun: goroutines are interleaved at the granularity of the listed steps, `Close` is called once, and memory effects of the scheduler are not part of this model.
- Scanner.Initial: failures while a process starts are not modelled; a new process resumes from the stored maximum, or else from a given height.
- Balances.BalancesDB.UpdateOrCreate: a save fails when the value leaves the range of its column; other database faults are modelled as faults of the whole attempt. Rows with the same address are possible in the schema; the first one is used.
- Balances.BalancesDB.UpdateBalances: the condition on an empty address vanishes (`database/balances.go:51`), so that the code takes an arbitrary row there; the model looks it up like any other address.
- DepositWorker.RunBody: child transactions, outputs, the status updates of withdrawals and internal transfers, and `UpdateVinsTx`, which addresses the internals table, are left out; so is the input lookup of `HandleVout`. For the scanner's messages, which carry no inputs, the outputs, `UpdateVinsTx` and `HandleVout` have nothing to do.
- Retry.Do: powers of two and durations are exact integers, where the code goes through floating point; jitter is any value the generator can return. `Do2` and `FixedStrategy` only wrap or return a constant.
- DeterministicClocks.DeterministicClock.AfterFunc: the callback is an opaque effect that is counted and does not call the clock again.
- DeterministicClocks.AdvancingClock.OnTick: the goroutine and the quit channel behind `Start` and `Stop` are left out; ticks may arrive at any time.
- `SleepCtx`, `Since`, `WaitForNewPendingTask` and its channel, `MinCheckedTimestamp`: waiting and trivial reads.
- The sending workers for withdrawals and internal transfers, the notifier, the service handlers, serializers, command line, configuration, flags, logging and table creation: input and output, or not decided by the code at hand.
