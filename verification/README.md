# FIHOS verification model

FIHOS runs prepaid hotspots: vouchers open sessions on MikroTik routers, a worker
drives the devices and accounts for traffic, customers pay from wallets. This
project models the stateful parts of its Go backend in Dafny and proves what they
keep over whole runs.

| files | what they model |
|---|---|
| `WalletTables`, `WalletSteps`, `WalletInvariant`, `WalletTheorems` | customers, billing windows, payments and the wallet ledger; every transaction as a sequence of statements under row locks, any number of them interleaved, each of them abortable at any point |
| `WalletOutcomes` | when a top-up reaches the wallet, and windows paid without it |
| `WalletAnswers` | what each wallet operation answers and leaves, from its start to its end, when its rows are free |
| `WalletStore`, `WalletCharges` | the store's and the billing service's methods as code over tables updated in place, while a schedule of other transactions runs at every pause |
| `UsageTables`, `UsageRuns`, `UsageIntervals`, `UsageStore` | session counters and usage rows; worker snapshots interleaved with disconnects that hold stale counters; when usage is booked |
| `Devices`, `DeviceRates`, `Simulators`, `SimulatorAnswers`, `SimulatorHistory`, `SimulatorStores` | the emulated routers, once in memory and once as documents in Redis; their rates in numbers, and what answers say about the calls before |
| `ScheduleSteps`, `ScheduleTheorems`, `ScheduleJobs`, `ScheduleConfigured`, `ScheduleSplit`, `ScheduleWitnesses`, `ScheduleWorker` | the scheduler tick: configuration jobs, rate windows, reverts; also split into single calls and updates with the API in between |
| `Reconcile`, `ReconcileTraffic`, `ReconcileWorker` | one reconciliation of a router with the session table, the traffic it stores, and runs of them |
| `Spikes`, `SpikeRules` | the traffic-spike rule with its median and three-deviation threshold, and the same in whole numbers |
| `Alerts`, `AlertRows`, `AlertEngine`, `AlertDigest` | alert deduplication, auto-resolution, the engine's run and the hourly digest |
| `RateLimit` | the fixed-window request limiter |
| `Codes`, `Vouchers`, `VoucherSales` | voucher codes and usernames; batches, redemption and revocation; sales reports and redeeming by a typed code |
| `Wrappers` | `Option` and `Result` |

How the parts are modelled:

- A database row lock is an entry of a lock map. A `FOR UPDATE` or an `UPDATE`
  waits while another transaction holds the row and evaluates its `WHERE` clause
  when it gets it. Writes of a transaction reach the tables at its commit, all
  together, and an abort drops them. A commit whose outcome the client does not
  learn is one of the two.
- Identity columns are positions in a sequence; amounts are whole cents;
  multipliers are hundredths; times are microseconds (milliseconds in
  `RateLimit`). Floating-point rates and statistics are exact reals.
- Random values, generated references, clock readings, map iteration orders and
  failures are arguments or parts of events, so theorems hold for every choice of
  them.

Where the code and its documentation or its evident intent differ, the model
follows the code:

- The index `uq_payment_topup` (`migrations/0010_wallet.up.sql:34`) covers
  succeeded top-ups too, and no code path marks a top-up failed, so a customer can
  have one top-up ever (`WalletTheorems.OneTopUpPerCustomer`); a top-up is accepted
  exactly when there was none before (`WalletOutcomes.TopUpAcceptedIff`,
  `WalletOutcomes.SecondTopUpRefused`).
- Fee and net amount are rounded separately, and add up to a cent more than the
  amount for every amount ending in 50 cents (`WalletTheorems.FeeSplit`).
- Marking a paid window paid again succeeds (`MarkWindowPaid` has no guard on the
  status); only the wallet payment refuses a paid window
  (`WalletOutcomes.PayingIff`).
- When `Settle` fails between its status update and the credit, the payment stays
  succeeded and later webhooks return without crediting it, so the wallet is never
  credited (`WalletOutcomes.TopUpsGetLost`, `WalletOutcomes.NeverCreditedLater`).
  `WalletOutcomes.CreditedIff` says exactly when a top-up reaches the wallet, and
  `WalletTheorems.TopUpsConserved` counts the others separately.
- The two simulators visit sessions in different orders. When every session of a
  router is chosen to drop, which one survives depends on the order, and this is
  the only way in which they can differ (`Simulators.AgreementIsExact`); the next
  listing then answers with different sessions (`SimulatorAnswers.AnswersIff`,
  `SimulatorAnswers.AnswersDiffer`).
  Registering a router again renames it in Redis only, which no call shows.
- Overlapping rate windows with different boosts make the worker change the rate
  in every tick (`ScheduleTheorems.SettledIff`), and a revert puts a disabled
  hotspot back in service (`ScheduleTheorems.RevertReactivatesIff`); runs reach both
  (`ScheduleWitnesses`).
- The spike rule asks for five hourly buckets and needs ten
  (`Spikes.SpikeNeedsTen`).
- Every alert that `Run` digests has just been inserted or counted up, so it is
  open: the digest's open count always equals its total and its resolved count is
  zero (`AlertEngine.OpenDigest`). No code path of the repository calls `Run`.
- A rate limit below one admits one request per window, and a window below one
  second denies every request, as `SET` with an expiry of zero is an error
  (`RateLimit.DeniedOnlyWhenUsedUp`). The window is cut to whole seconds, so with a
  window of 1.5 seconds a span shorter than the window can admit more than twice a
  limit of two or more (`RateLimit.WindowHoldsIff`); windows of whole seconds keep
  the promise (`RateLimit.OrdinaryWindowHolds`).
- The code alphabet is called base32 and has thirty characters
  (`Codes.AlphabetIs`); a typed long s counts as an S (`Codes.UpperInAlphabet`).

## Model

| member | source | states |
|---|---|---|
| WalletTheorems.LedgerAddsUp | backend/internal/store/wallet.go:110-185 | in every interleaving of settlements, adjustments, wallet and manual payments, each balance is non-negative and equals the sum of the customer's ledger rows, and each row's balance_after is the sum of the rows up to it |
| WalletTheorems.HistoryIsFinal | backend/internal/store/wallet.go:179-185 | no later event removes or rewrites a ledger row, reopens a paid window or takes back a settled payment |
| WalletTheorems.CreditedAtMostOnce | backend/internal/service/billing.go:109-128 | however often and concurrently a payment is settled, the ledger has at most one row for it, of its net amount and for its own customer, and only when it is a succeeded top-up |
| WalletTheorems.CreditedIsRest | backend/internal/service/billing.go:118-126 | the credited top-ups of a customer are the succeeded ones without those whose settlement stopped between status update and credit |
| WalletTheorems.TopUpSumIsNetSum | backend/internal/store/wallet.go:69-74 | a customer's top-up rows add up to the net amounts of the payments they refer to |
| WalletTheorems.TopUpsConserved | backend/internal/service/billing.go:109-128 | per customer, the top-up rows add up to the net of succeeded top-ups minus the net of those stopped between the status update and the credit |
| WalletOutcomes.CreditedIff | backend/internal/service/billing.go:109-128 | when nobody is just crediting it, a top-up is in the ledger if and only if it has succeeded, its net amount is positive and no abort hit its settlement between the status update and the credit |
| WalletOutcomes.ChargedTopUpCreditedIff | backend/internal/service/billing.go:65-93 | for the payments that ChargeTopUp creates, the same with a positive amount in place of a positive net amount |
| WalletOutcomes.StoppedWhy | backend/internal/service/billing.go:118-126 | a settlement stops between status update and credit only by an abort there or for a net amount that is not positive; nothing else, such as an unknown customer or an overdraft, can stop it |
| WalletOutcomes.NeverCreditedLater | backend/internal/service/billing.go:114-116 | a settlement that stopped there is never made up for, whatever webhooks and transactions follow |
| WalletOutcomes.TopUpsGetLost | backend/internal/service/billing.go:109-128 | a run in which it happens, for every positive amount: the payment is succeeded, the second webhook finds it settled and the ledger is empty |
| WalletTheorems.OneTopUpPerCustomer | migrations/0010_wallet.up.sql:34 | once a customer has a pending or succeeded top-up, every later run refuses another one, so a ledger never has two top-up rows of one customer |
| WalletOutcomes.TopUpAcceptedIff | migrations/0010_wallet.up.sql:34 | after every run, a well-formed top-up with a fresh reference for an unlocked customer is accepted if and only if that customer has never had a top-up, in whatever status |
| WalletOutcomes.SecondTopUpRefused | backend/internal/store/ops.go:45-55 | a run in which a first top-up of any positive amount is settled and credited, after which a second one is refused |
| WalletTheorems.BilledAtMostOnce | backend/internal/store/wallet.go:110-138 | a window has at most one bill_payment row, of minus its amount and for its own customer, and only if it is paid |
| WalletOutcomes.PaidIsNeverCharged | backend/internal/store/wallet.go:119-124 | once a window is paid without a bill_payment row, no later run ever charges it to the wallet |
| WalletOutcomes.PayingIff | backend/internal/store/billing.go:127-138 | an unlocked window that exists can be paid manually, paid or not; the wallet payment is refused exactly when the window is unknown or paid |
| WalletAnswers.AdjustAnswer | backend/internal/store/wallet.go:142-185 | a correction of an unlocked balance, from start to end: refused for a change of zero, for an unknown customer and for a balance that would fall below zero, and otherwise committed with exactly its row and the new balance |
| WalletAnswers.BillAnswer | backend/internal/store/wallet.go:110-138 | a wallet payment of an unlocked window, from start to end: refused for an unknown or paid window and for a balance below its amount, and otherwise committed with the balance, the row and the window paid |
| WalletAnswers.SettleAnswer | backend/internal/service/billing.go:109-128 | a settlement with nobody else at the rows, from start to end: a succeeded payment stays, a pending one succeeds, and a top-up that nets something is credited with its row |
| WalletAnswers.UnknownSettlement | backend/internal/service/billing.go:109-113 | settling an unknown reference ends not found and writes nothing |
| WalletAnswers.OnlyCommitsWrite | backend/internal/store/wallet.go:161-185 | no statement before the commit, no refusal and no abort ever changes a balance, a ledger row or a window |
| WalletAnswers.GeneratesExactly | backend/internal/store/billing.go:56-77 | a generation issues a window of the fee for exactly the token customers of the tenant that lack one, one each, and rewrites none |
| WalletAnswers.VoucherChargeAcceptedIff | backend/internal/store/ops.go:45-55 | a voucher charge is accepted if and only if its amount is not negative and its reference is new |
| WalletTheorems.OneWindowPerPeriod | backend/internal/store/billing.go:56-77 | in every run a customer has at most one window per period |
| WalletTheorems.GenerateIsIdempotent | backend/internal/store/billing.go:56-77 | generating twice for the same tenant and period inserts nothing the second time, and the first time leaves every token customer with a window |
| WalletTheorems.WaitingRanksBelow | backend/internal/store/wallet.go:119-122 | a transaction waits only for one further on in the lock order, windows before customers |
| WalletTheorems.NoWaitCycle | backend/internal/store/wallet.go:163-165 | in every reachable state a chain of transactions waiting for each other has at most three members and is no cycle |
| WalletTheorems.SomeoneCanStep | backend/internal/store/billing.go:141-143 | as long as a transaction is unfinished, some transaction can take a step |
| WalletTheorems.EveryRunCanFinish | backend/internal/store/wallet.go:110-177 | from every reachable state all transactions can be driven to their end by steps alone, without an abort |
| WalletTheorems.FeeSplit | backend/internal/service/billing.go:76-86 | stored fee and net add up to the amount exactly unless it ends in 50 cents, when they exceed it by one cent; a positive amount always nets something |
| WalletTheorems.FeeRates | backend/internal/service/billing.go:76-86 | the fee is three per cent of the amount and the net amount 97 per cent, each to the nearest cent with half a cent going up |
| WalletInvariant.NextKeepsInv | backend/internal/store/wallet.go:110-185 | every single statement, commit or abort of any transaction keeps the invariant over locks, transactions, balances, ledger, payments and windows |
| WalletInvariant.RunKeepsInv | backend/internal/store/wallet.go:110-185 | every run keeps that invariant |
| WalletStore.Store.SelectCustomerForUpdate | backend/internal/store/wallet.go:163-169 | locks the customer's row and reads its balance, waits while it is held, fails when there is no such customer |
| WalletStore.Store.UpdateBalance | backend/internal/store/wallet.go:170-176 | refuses a negative result, otherwise the balance to be committed is the locked one plus the change |
| WalletStore.Store.InsertWalletTx | backend/internal/store/wallet.go:179-185 | the row to be committed has the change, the resulting balance and a fresh id |
| WalletStore.Store.MarkWindowPaidTx | backend/internal/store/billing.go:140-154 | the statement in the wallet payment that marks its window |
| WalletStore.Store.UpdateWindowPaid | backend/internal/store/billing.go:127-138 | the manual payment's update takes the window's row, or waits, or finds none |
| WalletStore.Store.ReadPayment | backend/internal/store/ops.go:65-69 | Settle's read: not found, already succeeded, or on to the update |
| WalletStore.Store.UpdatePaymentStatus | backend/internal/store/ops.go:71-80 | the guarded update makes a pending or failed payment succeeded, and fails otherwise |
| WalletStore.Store.CreatePayment | backend/internal/store/ops.go:45-55 | inserts the payment unless a constraint refuses it, and changes nothing else |
| WalletStore.Store.LockAndApply | backend/internal/store/wallet.go:161-185 | with others running at every pause, the transaction ends with its ledger row inserted and not yet committed, or rolled back because the customer is unknown, the balance too low or the context over; the run is one of the modelled runs |
| WalletStore.Store.AdjustBalance | backend/internal/store/wallet.go:142-157 | a committed call has its own row in the ledger since it began, with others interleaved; otherwise it ended not found, overdrawn or aborted |
| WalletStore.Store.AdjustWallet | backend/internal/store/wallet.go:78-83 | a zero change is refused at once; a committed adjustment is in the ledger with its change and customer |
| WalletStore.Store.PayLockedWindow | backend/internal/store/wallet.go:119-137 | with the window locked, the wallet payment goes through to its commit or rolls back |
| WalletStore.Store.DebitWalletForBillByWindow | backend/internal/store/wallet.go:110-138 | a committed call has booked minus the window's amount for the window's own customer and the window is paid |
| WalletStore.Store.MarkWindowPaid | backend/internal/store/billing.go:127-138 | a committed manual payment leaves the window paid; otherwise it was rejected |
| WalletStore.Store.SettlePayment | backend/internal/service/billing.go:109-128 | when Settle does not fail before its update, the payment is succeeded, and a committed top-up has its credit row in the ledger |
| WalletCharges.Billing.SettleOrReturn | backend/internal/service/billing.go:95-104 | an asynchronous charge comes back pending and untouched; a synchronous one comes back succeeded only when the settlement went through |
| WalletCharges.Billing.ChargeFor | backend/internal/service/billing.go:65-104 | a refused payment changes nothing; an accepted one is inserted, and when it comes back settled its row is succeeded |
| WalletCharges.Billing.ChargeTopUp | backend/internal/service/billing.go:65-93 | a top-up comes back with three per cent as its fee and 97 per cent net, to the nearest cent; settled at once, it has a ledger row of that net amount for its customer |
| WalletCharges.Billing.Charge | backend/internal/service/billing.go:32-61 | a voucher charge comes back pending or succeeded with three per cent as its fee and 97 per cent net, to the nearest cent, and its run is one of the modelled runs |
| WalletCharges.CreditInLedger | backend/internal/service/billing.go:121-125 | as references are unique, the payment that the settlement found is the one charged, so its net amount is in the ledger for its customer |
| UsageTables.UpsertAdds | backend/internal/store/sessions.go:243-251 | whether it inserts or merges, an upsert adds exactly the new row's bytes to its session's total and nothing to another |
| UsageTables.IncrementsCover | backend/internal/store/sessions.go:231-240 | clamped increments cover every report, and equal the last one when reports never drop |
| UsageTables.IncrementsExact | backend/internal/store/sessions.go:231-240 | they equal the last report if and only if no report ever dropped |
| UsageRuns.UsageIsIncrements | backend/internal/store/sessions.go:219-323 | in every interleaving, a session's usage rows add up to the positive increments of its committed reports; so they never fall below a report or the stored counter, and equal the counter when reports never drop |
| UsageRuns.ClosedOnce | backend/internal/store/sessions.go:268-323 | a session closes at most once, and a closed one has a row that starts one minute before its end, with that end and the whole seconds since its start |
| UsageRuns.ClosedIsFinal | backend/internal/store/sessions.go:268-323 | a closed session, its rows and its reports never change again, whatever the worker and the API still try |
| UsageRuns.TotalsGrow | backend/internal/store/sessions.go:243-251 | no event ever lowers a session's recorded bytes |
| UsageRuns.StaleCloseKeepsCounters | backend/internal/handler/sessions.go:82-102 | closing with counters that were read before later snapshots lowers no counter and adds no bytes |
| UsageRuns.RunKeepsInv | backend/internal/store/sessions.go:219-323 | every run keeps locks, row keys, totals and the state of closed sessions consistent |
| UsageIntervals.UsageIsBookedInTime | backend/internal/store/sessions.go:219-323 | in every interleaving, the bytes of the rows of a session that start at a moment are exactly the gains of the snapshots taken then and of a closing that ended one minute later |
| UsageIntervals.SnapshotBooksAt | backend/internal/store/sessions.go:219-265 | a snapshot raises the bytes booked at its own time by the gain over the stored counters, and those of no other session or time; it succeeds exactly for an active session and stores the reported counters |
| UsageIntervals.CloseBooksAt | backend/internal/store/sessions.go:268-323 | the same for a closing, one minute before its end, with counters that do not fall; a negative duration, or one that the column cannot hold, is refused, by its bounds |
| UsageIntervals.SnapshotRowIs | backend/internal/store/sessions.go:243-251 | a new row has the session's tenant, voucher and rate window and no duration; one that is there keeps all but its bytes and its end, and no other row changes |
| UsageIntervals.ClosingRowIs | backend/internal/store/sessions.go:297-308 | the row of the last minute has the end and the whole seconds since the start; a new one has the session's tenant, voucher and rate window, and no other row changes |
| UsageIntervals.SnapshotAlone | backend/internal/store/sessions.go:219-265 | in the interleaved model, an undisturbed snapshot does what the uninterrupted transaction does |
| UsageIntervals.DisconnectAlone | backend/internal/handler/sessions.go:73-109 | an undisturbed disconnect closes the session with the counters it has and books no bytes; a closed session stays, an unknown one is not found, and a duration that does not fit changes nothing |
| UsageStore.Store.SnapshotSessionUsage | backend/internal/store/sessions.go:219-265 | the code in place does what the transaction of the interleaved model does, or fails and changes nothing |
| UsageStore.Store.CloseSession | backend/internal/store/sessions.go:268-323 | the code in place does what the closing transaction of the interleaved model does: clamped increments, counters that do not fall, the row of the final minute; a duration that does not fit its column changes nothing |
| UsageStore.Store.PostSessionDisconnect | backend/internal/handler/sessions.go:73-109 | another tenant's or an unknown session is not found, a closed one is returned as it is, and one whose hotspot or router is missing stays untouched; otherwise the device loses the session, whether or not it answers, others write, and the session closes with the counters read before |
| Devices.Rate | backend/internal/mikrotik/simulator.go:205-220 | the largest positive receive rate of the hotspots, or 1024 when there is none |
| DeviceRates.RateIs | backend/internal/mikrotik/simulator.go:205-220 | the same with its number: at least every positive receive rate and one of them, and 1024 when none is positive |
| Devices.ListingKeepsCounters | backend/internal/mikrotik/simulator.go:180-203 | a listing reports every session exactly once, lowers no counter, keeps exactly the sessions not chosen to drop, and never empties a router that had sessions |
| Devices.OrderMatters | backend/internal/mikrotik/simulator.go:186-201 | two visiting orders leave the same sessions exactly when some session is not chosen to drop or both end with the same one; the reports are always the same |
| DeviceRates.ScaledBounds | backend/internal/mikrotik/simulator.go:142-144 | a rate at m hundredths is the whole part of m per cent of the base rate, mirrored for a negative base rate |
| DeviceRates.ConfigAnswers | backend/internal/mikrotik/simulator.go:105-126 | who accepts a configuration, with which error others refuse it unchanged, and the hotspot afterwards: the new base rates and limit, and rates of its multiplier in hundredths times those, exactly the base rates at 100 |
| DeviceRates.BoostAnswers | backend/internal/mikrotik/simulator.go:128-146 | the same for a boost: the base rates and the limit stay, and both rates become the whole part of the boost times them |
| DeviceRates.BoostAndConfigCommute | backend/internal/mikrotik/simulator.go:105-146 | boosting and configuring a hotspot in either order leaves the same router |
| DeviceRates.ListingTraffic | backend/internal/mikrotik/simulator.go:186-198 | a listing reports each session with exactly what the router's rate moves in the interval at the drawn jitter, between 60 and 140 per cent, and 28 per cent of that in the other direction |
| Simulators.CallsAgree | backend/internal/mikrotik/redis_simulator.go:67-216 | on mirrored routers a call leaves both simulators mirrored and gives the same answer |
| Simulators.SimulatorsAgree | backend/internal/mikrotik/redis_simulator.go:67-216 | for every sequence of calls by one caller, both give the same errors, statuses and sessions, unless a listing drops every session and the orders end differently |
| Simulators.AgreementIsExact | backend/internal/mikrotik/redis_simulator.go:175-203 | the exception is exact for what is stored: a listing leaves mirrored routers mirrored if and only if some session stays or both orders end with the same one |
| SimulatorAnswers.FreshSimulatorsAgree | backend/internal/mikrotik/redis_simulator.go:67-216 | from two fresh simulators on, every sequence of calls by one caller gets the same errors, statuses and sessions and leaves them mirrored, under the same proviso |
| SimulatorAnswers.AnswersIff | backend/internal/mikrotik/redis_simulator.go:175-203 | the proviso is exact for what callers see: on mirrored routers a listing is answered alike in any case, and the next listing of that router is answered alike if and only if some session stayed or both orders ended with the same one |
| SimulatorAnswers.FreshAnswersIff | backend/internal/mikrotik/redis_simulator.go:175-203 | the same after every run of two fresh simulators |
| SimulatorAnswers.AnswersDiffer | backend/internal/mikrotik/simulator.go:199-201 | it occurs: two fresh simulators get the same calls, a listing drops both sessions of a router, and the next one answers with different sessions |
| Simulators.KeysDiffer | backend/internal/mikrotik/redis_simulator.go:34-36 | routers share a document key only if they have the same id |
| SimulatorHistory.RoutersFollowCalls | backend/internal/mikrotik/simulator.go:53-80 | after every run from scratch, a router is known exactly when its last registration or removal was a registration, and online exactly when no reset came after it either |
| SimulatorHistory.ProbeAnswers | backend/internal/mikrotik/simulator.go:96-103 | a probe tells just that: unknown routers fail, known ones are online or not, as of now |
| SimulatorHistory.SwitchesKeepSessions | backend/internal/mikrotik/simulator.go:53-103 | registering again, resetting and probing keep a router's sessions and hotspots; a new router has none |
| SimulatorHistory.OthersRefuse | backend/internal/mikrotik/simulator.go:164-185 | disconnecting at and listing an unknown or an offline router fail with their own errors and change nothing |
| SimulatorHistory.SeededIsListed | backend/internal/mikrotik/simulator.go:148-203 | the next listing reports a session just seeded, with its addresses and counters that did not fall |
| SimulatorHistory.DisconnectedIsNotListed | backend/internal/mikrotik/simulator.go:164-203 | the next listing reports every other session of the router and not the one just disconnected |
| SimulatorStores.RateOf | backend/internal/mikrotik/simulator.go:205-220 | the loop over the hotspots finds that rate |
| SimulatorStores.VisitInMapOrder | backend/internal/mikrotik/simulator.go:186-202 | the in-memory listing loop, deleting while it visits, does what the recursive specification says |
| SimulatorStores.VisitSorted | backend/internal/mikrotik/redis_simulator.go:183-198 | the Redis listing loop over sorted names leaves the sessions and reports of the same specification for that order |
| SimulatorStores.Simulator.RegisterRouter | backend/internal/mikrotik/simulator.go:53-63 | a new router starts offline and empty, and registering puts it online, keeping whatever an existing one had: exactly the specification call on which both simulators are compared |
| SimulatorStores.Simulator.ApplyHotspotConfig | backend/internal/mikrotik/simulator.go:105-126 | unknown and offline routers refuse and stay as they were; otherwise new base rates meet the multiplier the hotspot already had, 1 for a new one |
| SimulatorStores.Simulator.ApplyRateMultiplier | backend/internal/mikrotik/simulator.go:128-146 | refuses unknown routers, offline routers and unknown hotspots in this order; otherwise both rates become the base rates times the new multiplier |
| SimulatorStores.Simulator.SeedSession | backend/internal/mikrotik/simulator.go:148-154 | an online router gets the session under its username, replacing an older one; any other router stays as it was |
| SimulatorStores.Simulator.DisconnectSession | backend/internal/mikrotik/simulator.go:164-176 | an online router loses the session, present or not; other routers refuse |
| SimulatorStores.Simulator.ListSessions | backend/internal/mikrotik/simulator.go:180-203 | what the listing specification says for the given visiting order, jitters and drops; unknown and offline routers refuse unchanged |
| SimulatorStores.RedisSimulator.RegisterRouter | backend/internal/mikrotik/redis_simulator.go:67-81 | the same effect as in memory on the document under the router's key, apart from a renaming, with every other document untouched |
| SimulatorStores.RedisSimulator.ApplyHotspotConfig | backend/internal/mikrotik/redis_simulator.go:108-128 | the same answers and the same new document as in memory; a refusal writes nothing |
| SimulatorStores.RedisSimulator.ApplyRateMultiplier | backend/internal/mikrotik/redis_simulator.go:130-147 | the same answers in the same order as in memory; a refusal writes nothing |
| SimulatorStores.RedisSimulator.SeedSession | backend/internal/mikrotik/redis_simulator.go:149-157 | the same effect on the router's document as in memory |
| SimulatorStores.RedisSimulator.DisconnectSession | backend/internal/mikrotik/redis_simulator.go:159-170 | the same effect and answer as in memory |
| SimulatorStores.RedisSimulator.ListSessions | backend/internal/mikrotik/redis_simulator.go:175-203 | the listing specification over the sorted names, written back as one document |
| ScheduleSteps.OldestPending | backend/internal/store/infra.go:291-306 | the worker gets at most its limit of pending jobs, oldest first and each once; a pending job is left out only when the limit is reached, and then it is younger than all of them |
| ScheduleJobs.TickTakesTwenty | backend/cmd/worker/main.go:185-213 | a tick decides a pending job whose hotspot exists exactly when fewer than twenty jobs are pending before it, and leaves any other for later |
| ScheduleJobs.JobConfigures | backend/cmd/worker/main.go:187-213 | a pending job with its rows makes one device call; it is done exactly when that succeeds on an online router, and then the hotspot is active at its multiplier and the device has the profile's base rates and limit and the rates that follow; otherwise it has failed and nothing else is touched |
| ScheduleJobs.JobWithoutRows | backend/cmd/worker/main.go:188-197 | a job without its hotspot is left alone, one without its profile fails, and neither calls a device |
| ScheduleJobs.DecidedStays | backend/internal/store/infra.go:308-316 | a job decided meanwhile never fails afterwards; only a call that succeeds makes it done |
| ScheduleConfigured.TickServes | backend/cmd/worker/main.go:181-244 | a queued job that comes in time, has its rows and reaches its router is done after the tick, whatever the other jobs and windows do: the hotspot is in service and its device has the profile's base rates and limit and the rates of the recorded multiplier |
| ScheduleConfigured.SavingTakesOutOfService | backend/internal/store/infra.go:221-263 | creating or changing a hotspot takes it out of service until then |
| ScheduleTheorems.RecordedIsApplied | backend/cmd/worker/main.go:181-244 | over any run of ticks in which any device call may fail, with hotspots, profiles, windows and jobs changing and routers going away in between, the recorded applied_multiplier is always the device's multiplier |
| ScheduleSplit.RecordedOrAboutToBe | backend/cmd/worker/main.go:187-244 | the same with the tick split into its reads, device calls and row updates and every API write or other device call allowed between any two of them: each device has the recorded multiplier, or the one the worker is about to record |
| ScheduleSplit.TickIsSteps | backend/cmd/worker/main.go:181-244 | every tick is a run of these steps with nothing in between |
| ScheduleTheorems.TickKeepsGood | backend/cmd/worker/main.go:181-244 | one tick keeps that, whatever fails and whatever the two clocks say, and makes one rate call per listed window and hotspot |
| ScheduleTheorems.JobKeepsGood | backend/cmd/worker/main.go:187-213 | a configuration job changes no multiplier and takes no hotspot out of service |
| ScheduleTheorems.RateKeepsGood | backend/cmd/worker/main.go:221-228 | a rate call changes its own hotspot only, and changes it exactly when the call succeeds on a router that is online and knows the hotspot |
| ScheduleTheorems.TickSteers | backend/cmd/worker/main.go:215-244 | whatever happens elsewhere, a tick brings an active hotspot that answers to the boost of the windows that contain the present moment, or to 100 without one, and its rates on the device to the whole part of the base rates times that, exactly the base rates at 100 |
| ScheduleTheorems.CallsIff | backend/internal/store/insights.go:119-174 | a tick makes a start call for an active hotspot exactly when an active window asks for another multiplier, and a revert call exactly when none is active and it is boosted |
| ScheduleTheorems.SettledIff | backend/cmd/worker/main.go:215-244 | the next tick at the same time leaves the hotspot alone if and only if its active windows agree on one multiplier |
| ScheduleTheorems.QuietIff | backend/cmd/worker/main.go:215-244 | with every hotspot in service, the second tick makes no rate call at all if and only if the windows agree on every hotspot |
| ScheduleTheorems.RevertReactivatesIff | backend/internal/store/infra.go:270-274 | without a pending job, a hotspot that is not active becomes active in a tick exactly when it is boosted and has no active window |
| ScheduleWitnesses.OverlapNeverSettles | backend/internal/store/insights.go:119-140 | a reachable world with two overlapping windows, where after every first tick without a failure the second one calls the hotspot again |
| ScheduleWitnesses.DisabledComesBack | backend/internal/store/insights.go:155-174 | a reachable world with a disabled hotspot, which every tick without a failure puts back in service when its window has ended |
| ScheduleWorker.Worker.ApplyJob | backend/cmd/worker/main.go:187-213 | one turn of the job loop refines the specification: skip, fail or configure |
| ScheduleWorker.Worker.WindowsToStart | backend/internal/store/insights.go:119-140 | the scan returns exactly the active windows of active hotspots whose multiplier differs |
| ScheduleWorker.Worker.ListExpiredAppliedWindows | backend/internal/store/insights.go:155-174 | the scan returns exactly the boosted hotspots without an active window |
| ScheduleWorker.Worker.ChangeRate | backend/cmd/worker/main.go:221-228 | one turn of the rate loops refines the specification |
| ScheduleWorker.Worker.SchedulerTick | backend/cmd/worker/main.go:162-244 | the tick in place is a tick of the specification, with its queries answered at the right moments |
| Reconcile.SeededHas | backend/internal/mikrotik/sim_transport.go:37-41 | after seeding, an answering router holds every row's session with the stored counters |
| ReconcileTraffic.SeedIs | backend/cmd/worker/main.go:277-290 | that session has the row's username, addresses and both counters |
| Reconcile.ListedByUser | backend/cmd/worker/main.go:291-299 | the index of a listing has exactly the router's sessions, each with counters that did not fall |
| Reconcile.ConnectedPassSnaps | backend/cmd/worker/main.go:274-316 | with distinct usernames and no other writer, a pass over an answering router snapshots every session it was given with counters no lower than the stored ones, closes none and leaves all others alone |
| ReconcileTraffic.PassMeasures | backend/cmd/worker/main.go:274-316 | after such a pass every session has exactly the counters it had plus what the router's rate moves in the length of the pass at the session's jitter, to the byte and in both directions |
| ReconcileTraffic.UnlistedIsClosed | backend/cmd/worker/main.go:311-314 | a row that the listing lacks is closed as of now with the counters it has, and no usage is booked |
| Reconcile.ReconcileKeepsMemory | backend/cmd/worker/main.go:291-295 | a pass over an unknown or offline router changes nothing, neither tables nor device |
| Reconcile.PassesStayExact | backend/cmd/worker/main.go:274-316 | over runs of passes with routers failing, restarting and losing sessions in between, no session is closed and each one's usage rows add up to its counters |
| ReconcileWorker.GroupByRouter | backend/cmd/worker/main.go:257-272 | the loop groups the rows by router, in order |
| ReconcileWorker.GroupsPartition | backend/cmd/worker/main.go:263-270 | the groups lose no row, invent none and keep ids and usernames distinct |
| ReconcileWorker.RedeemedRowsFit | backend/internal/service/creds.go:18-20 | sessions that redemptions opened have distinct usernames, as a pass needs |
| ReconcileWorker.Reconciler.SeedSessions | backend/internal/mikrotik/sim_transport.go:37-41 | after the loop an answering router has every row's session, and any other router is untouched |
| ReconcileWorker.Reconciler.IndexByUser | backend/cmd/worker/main.go:296-299 | the loop over the listing indexes it by username, the last one winning |
| ReconcileWorker.Reconciler.RecordAll | backend/cmd/worker/main.go:301-315 | the loop over the rows snapshots the listed sessions and closes the others, ignoring failures |
| ReconcileWorker.Reconciler.ReconcileRouter | backend/cmd/worker/main.go:274-316 | the pass in place is the pass of the specification, on tables and device |
| Spikes.SumPermuted | backend/internal/service/anomaly.go:210-216 | sorting changes neither counts nor sums |
| Spikes.MiddleIsMedian | backend/internal/service/anomaly.go:212 | the middle element of the sorted sample has at most half of the sample below it and more than half at or below it |
| Spikes.MedianIsUnique | backend/internal/service/anomaly.go:212 | only one element can |
| Spikes.BeyondIsRare | backend/internal/service/anomaly.go:107-126 | hours more than three deviations above the center are fewer than a ninth of all hours, for any center |
| Spikes.ThresholdIsBeyond | backend/internal/service/anomaly.go:115-123 | comparing with the truncated threshold is comparing squared deviations, for any root of the variance |
| Spikes.NoSpikeBelowTen | backend/internal/service/anomaly.go:107-126 | the spike rule cannot fire with fewer than ten buckets, whatever the data |
| Spikes.SpikeNeedsTen | backend/internal/service/anomaly.go:107 | for each number of buckets, some data make the rule fire if and only if there are at least ten |
| SpikeRules.SpikeIff | backend/internal/service/anomaly.go:107-128 | the whole rule in whole numbers, without root, truncation or sorting: at least five buckets, not all alike, the current traffic more than twice the middle one, and the square of its distance from it times the number of buckets more than nine times the sum of all such squares |
| SpikeRules.CurrentIsLast | backend/internal/service/anomaly.go:116-122 | the current traffic is that of the last bucket of the hour |
| SpikeRules.MiddleOf | backend/internal/service/anomaly.go:212 | a middle traffic, with at most half of the buckets below it and more than half not above, exists for every nonempty sample |
| Spikes.Sort | backend/internal/service/anomaly.go:210 | the array is sorted in place and a permutation of what it was |
| Spikes.MeanStd | backend/internal/service/anomaly.go:206-219 | returns the median of the sample and the root-mean-square deviation about it, and zeros for an empty one |
| Spikes.SpikeRule | backend/internal/service/anomaly.go:107-128 | the rule in place fires exactly when the specification does |
| Alerts.LookupIsUnique | backend/internal/store/insights.go:187-190 | in every run of inserts, status changes and auto-resolves, the dedupe lookup matches at most one row |
| Alerts.OccurrencesCountInserts | backend/internal/store/insights.go:179-222 | the occurrences of a fingerprint add up to the number of inserts for it |
| Alerts.RunKeepsInv | backend/internal/store/insights.go:179-280 | in every run open alerts with one fingerprint were created at least an hour apart |
| Alerts.AtMost25Open | backend/internal/service/anomaly.go:270-276 | right after auto-resolution at most 25 alerts with one fingerprint are open |
| Alerts.Reaches25 | backend/internal/service/anomaly.go:270-276 | 25 are reached |
| Alerts.ReopeningIff | backend/internal/handler/phase6.go:119-123 | a status change keeps open alerts an hour apart if and only if the status is not open, or the alert was open, or no open one is within an hour of it; the API lets only other statuses through |
| AlertRows.RowsTellTheirHistory | backend/internal/store/insights.go:179-280 | in every run, open alerts of one fingerprint were created 3600 seconds apart, an open alert was never acknowledged or resolved, an acknowledged or dismissed one has its time of acknowledgement and a resolved one its time of resolution, all between its creation and its last change |
| AlertRows.InsertIs | backend/internal/store/insights.go:179-222 | a finding counts up an open alert of its fingerprint that is less than 3600 seconds old, and without one becomes a new open alert with its own values that occurred once |
| AlertRows.StatusIs | backend/internal/store/insights.go:266-280 | acknowledging and dismissing set the time of acknowledgement, resolving that of resolution, each on an alert of the tenant only and leaving the other time alone |
| AlertRows.StaleAreResolved | backend/internal/service/anomaly.go:270-276 | auto-resolution changes exactly the tenant's open alerts created more than 86400 seconds ago |
| AlertRows.NoneLeftStale | backend/internal/service/anomaly.go:270-276 | so none of that age is left open |
| AlertEngine.AlertStore.InsertAlert | backend/internal/store/insights.go:179-222 | counts up in the recent open alert or inserts a new one, and returns that row, open and with the new value |
| AlertEngine.AlertStore.UpdateAlertStatus | backend/internal/store/insights.go:266-280 | sets the status and its time on the tenant's alert, or finds none |
| AlertEngine.AlertStore.ResolveStale | backend/internal/service/anomaly.go:270-276 | the update resolves exactly the tenant's open alerts older than a day, keeping an earlier resolution time |
| AlertEngine.FirstsDistinct | backend/internal/service/anomaly.go:143-150 | a run inserts one finding per fingerprint and misses no fingerprint |
| AlertDigest.FirstsAreEarliest | backend/internal/service/anomaly.go:143-150 | of several findings with one fingerprint it inserts the earliest |
| AlertEngine.RunLeavesAtMost25 | backend/internal/service/anomaly.go:141-162 | after every successful run, whatever came before, at most 25 alerts per fingerprint of the tenant are open |
| AlertEngine.AnomalyEngine.InsertAll | backend/internal/service/anomaly.go:141-156 | the loop inserts one finding per fingerprint and stops at a failing insert |
| AlertEngine.AnomalyEngine.Run | backend/internal/service/anomaly.go:141-162 | inserts, digests and resolves as events of the specification; a failing insert ends the run without digest and resolution |
| AlertEngine.AnomalyEngine.UpsertDigest | backend/internal/service/anomaly.go:221-254 | writes one summary per key present, with its counts, sum and times, and touches no other summary |
| AlertEngine.DigestCountsAll | backend/internal/service/anomaly.go:246-253 | the totals of the digest add up to the number of alerts |
| AlertDigest.SummaryIs | backend/internal/service/anomaly.go:227-253 | there is a summary for exactly the hotspots, kinds and severities of the alerts, with the number of the open, of all and of the resolved ones, the sum of their values, the creation time of the first and the latest |
| AlertEngine.OpenDigest | backend/internal/service/anomaly.go:246-253 | in a digest of open alerts every open count is the total and nothing is resolved |
| AlertEngine.GroupTimes | backend/internal/service/anomaly.go:237-244 | the first time is that of the group's first alert, the last time the latest of the group |
| AlertEngine.CountVouchers | backend/internal/service/anomaly.go:63-68 | the loop counts the sessions of each voucher |
| AlertDigest.UsesAre | backend/internal/service/anomaly.go:63-68 | that count is how often the voucher occurs |
| AlertEngine.NoSharedVoucher | backend/internal/service/anomaly.go:92-95 | for sessions that redemptions opened, no voucher counts more than once, so the rule for shared vouchers cannot fire |
| RateLimit.Limiter.RateAllow | backend/internal/middleware/db.go:85-100 | decides one request as the specification does and updates no other key |
| RateLimit.OneLifetime | backend/internal/middleware/db.go:87-98 | while a key lives it admits exactly what its limit leaves |
| RateLimit.SpanBound | backend/internal/middleware/db.go:87-98 | whatever the span, the requests from a reachable key on admit at most what its live key leaves and a full limit for every further key that fits, one lifetime apart |
| RateLimit.AnySpan | backend/internal/middleware/db.go:85-100 | in every run of requests, a span shorter than k lifetimes of a key admits fewer than k + 1 times the limit; for k = 1, fewer than twice the limit |
| RateLimit.InclusiveSpan | backend/internal/middleware/db.go:85-100 | a span of exactly one lifetime still admits at most twice the limit |
| RateLimit.WindowHoldsIff | backend/internal/middleware/db.go:85-100 | every span shorter than the configured window admits at most twice the limit if and only if a key lives as long as the window, to the millisecond (half as long for a limit of one) |
| RateLimit.WindowHoldsByLoss | backend/internal/middleware/db.go:85-100 | the same in milliseconds of the configured window: what is lost to the cut to whole seconds and to the TTL must be at most one (for a limit of one, at most half the window) |
| RateLimit.OrdinaryWindowHolds | backend/internal/middleware/db.go:85-100 | windows of whole seconds with an exact TTL keep the bound, and a key lives exactly as long as such a window |
| RateLimit.RequestOnKey | backend/internal/middleware/db.go:87-98 | what one request does to its key: a live one with its limit used up denies and stays, any other live one counts up, a dead one is set for the whole seconds of the window, or denies below a second |
| RateLimit.BoundIsReached | backend/internal/middleware/db.go:85-100 | for every limit that bound is reached by a burst around an expiry |
| RateLimit.LifetimeAdmitsQuota | backend/internal/middleware/db.go:85-100 | one lifetime of a key admits exactly the limit, or every request if there are fewer |
| RateLimit.DeniedOnlyWhenUsedUp | backend/internal/middleware/db.go:87-98 | a request is denied if and only if its live key has been used up, or the key is not live and the window is below a second |
| Codes.NormalizeInvertsDisplay | backend/internal/service/voucher.go:47-65 | normalising the displayed form of a valid code gives the code, in upper or lower case |
| Codes.SeparatorIgnored | backend/internal/service/voucher.go:47-49 | dashes and spaces anywhere make no difference |
| Codes.NormalizeIdempotent | backend/internal/service/voucher.go:47-58 | a normalised code is valid and normalises to itself |
| Codes.GenerateCode | backend/internal/service/voucher.go:14-25 | generated codes are valid |
| Codes.GeneratedFrom | backend/internal/service/voucher.go:14-25 | a generated string is nine characters with its dash in the middle, and its code has the drawn letter of the alphabet at each place |
| Codes.AlphabetIs | backend/internal/service/voucher.go:12 | the alphabet is the digits 2 to 7 and the capital letters without I and O |
| Codes.UpperInAlphabet | backend/internal/service/voucher.go:47-58 | the characters that a typed code may have: those, their small letters and the long s |
| Codes.GenerateBatchCodes | backend/internal/service/voucher.go:28-42 | returns as many distinct displayed codes as asked for, in the order in which they were first drawn |
| Codes.LookupFindsOnlyItsCode | backend/internal/store/vouchers.go:136-141 | the lookup's comparison matches a stored code for exactly the inputs that normalise to it |
| Codes.ParseOfFormat | backend/internal/service/creds.go:23-33 | parsing a formatted number gives the number |
| Codes.ProfileRoundTrip | backend/internal/service/creds.go:18-33 | parsing a session username gives its profile id if and only if the id is not negative |
| Codes.UsernameInjective | backend/internal/service/creds.go:18-20 | equal usernames come from equal profiles and equal codes |
| Codes.UsernameIsLower | backend/internal/service/creds.go:18-20 | the username is the profile id, a dash and the code in small letters |
| Vouchers.RedeemedExactlyOnce | backend/internal/store/sessions.go:61-113 | in every interleaving of redemptions and revocations a voucher is redeemed exactly when one session refers to it, and none has two |
| Vouchers.UsernamesDistinct | backend/internal/service/creds.go:18-20 | no two sessions opened by redemptions share a username |
| Vouchers.StatusIsFinal | backend/internal/store/vouchers.go:179-188 | redeemed and revoked are final, and codes, batches and sessions are never rewritten |
| Vouchers.SalesAddUp | backend/internal/store/vouchers.go:190-204 | the four status counts of a batch always add up to the number of codes it was created with |
| VoucherSales.SalesCount | backend/internal/store/vouchers.go:190-204 | after every run the report of a batch counts exactly its vouchers of each status, the redeemed ones are as many as the sessions opened with its vouchers, and another tenant or a batch without vouchers gets none |
| VoucherSales.NewBatchSales | backend/internal/store/vouchers.go:59-95 | a new batch with a positive quantity and new codes starts with all its vouchers unused, and any other is refused as a whole |
| VoucherSales.NewBatchRows | backend/internal/store/vouchers.go:59-95 | its vouchers follow all others in the order of the codes, under its tenant and batch |
| Vouchers.RunKeepsInv | backend/internal/store/sessions.go:61-113 | every run keeps locks, statuses, sessions, codes and batches consistent |
| Vouchers.RedeemAlone | backend/internal/store/sessions.go:61-113 | an uninterrupted redemption is all or nothing: not found, conflict, or voucher marked and session opened |
| VoucherSales.RedeemByCode | backend/internal/handler/portal.go:55-135 | typing a voucher's code in any spelling redeems exactly that voucher, if it is unused and the hotspot known, and opens one session under the username of that profile and code; a used or revoked one conflicts, and nothing else changes |
| VoucherSales.RedeemWrongCode | backend/internal/handler/portal.go:55-64 | a code of the wrong format is refused as such, one that none of the tenant's vouchers has is not found, and nothing changes |
| Vouchers.RevokeAlone | backend/internal/store/vouchers.go:179-188 | an uninterrupted revocation marks an unused voucher of the tenant, or finds none |
| Vouchers.BatchStore.RedeemVoucher | backend/internal/store/sessions.go:61-113 | the code in place does what the steps of an uninterrupted redemption do, and succeeds exactly for an unused voucher of the tenant at a known hotspot |
| Vouchers.BatchStore.RevokeVoucher | backend/internal/store/vouchers.go:179-188 | the code in place does what the step of an uninterrupted revocation does, and succeeds exactly for an unused voucher of the tenant |
| Vouchers.BatchStore.CreateBatchRows | backend/internal/store/vouchers.go:59-95 | inserts all vouchers of a batch, unused and in order, or none if a code is taken or repeated or the quantity is not positive |

## Left out

- HTTP handlers, authentication, auditing, pagination and the frontend: plumbing around the modelled methods.
- `restTransport`: a network client for real routers; the model's devices are the simulators.
- `pushHotspotConfig` (`backend/internal/handler/infra.go:409-434`): it multiplies rates that the simulator multiplies again, which breaks what the scheduler keeps.
- `DebitWalletForBill`: it has no caller and no guard on the window's status.
- `UpsertRouterSession`, `DropSession`, `SetNow`: nothing in the worker or the API calls them.
- Renaming and moving hotspots, unregistering routers in scheduler runs: the device would keep the old hotspot.
- Deleting customers, windows, hotspots and routers, and the statuses that no code path sets (overdue windows, failed or refunded payments, expired vouchers).
- Concurrent calls of the Redis simulator: each of its calls reads and writes a document without a transaction, so only one caller at a time is modelled; Redis itself never fails.
- Concurrent alert inserts: nothing in the schema keeps two open alerts apart, so alerts are sequential.
- WalletStore.Store.CreatePayment: a payment for a customer whose row is locked counts as refused instead of waiting, because waiting for the foreign key only delays it.
- Waiting of `GenerateMonthlyWindows`: it is one statement and one event here, although its inserts take a share lock on each customer and wait while a wallet transaction holds one; so WalletTheorems.NoWaitCycle and WalletTheorems.SomeoneCanStep do not speak of it.
- A worker that dies between a device call and the update of the row: database writes of the worker succeed.
- RateLimit.AnySpan: counts in lifetimes of a key, which are shorter than the window by what the TTL rounds away (a parameter, 0 for an exact TTL) and by the window's fraction of a second; `RateLimit.WindowHoldsIff` says when the window itself will do.
- WalletTheorems.FeeSplit: states the rounding of the columns for exact products, because floating-point products may round differently at a half cent.
- Reconcile.ConnectedPassSnaps: assumes that nobody writes the sessions between the listing and the snapshot; interleavings of snapshots and disconnects are the subject of `UsageRuns`.
- Vouchers.BatchStore.CreateBatchRows: batches and codes only; prices, expiry dates and the batch's other columns do not matter to the properties.
- Codes.GenerateBatchCodes: takes the drawn codes as an argument; how random numbers are drawn is library code.
- The other anomaly rules (uptime, traffic allowance, MAC changes, concurrency): single comparisons on one row; their findings enter the engine's run as its input.
- Passwords and references: random strings; references enter as arguments whose uniqueness the table checks.
- Overflow of 64-bit counters and amounts, `NUMERIC` rounding of alert values and nanoseconds below a microsecond.
- Aliasing of routers and sessions in memory: the simulators' maps hold values, and each call writes back what it changed.
- The order in which `sort.Strings` lists names and in which PostgreSQL returns unordered rows: both are arguments, so theorems hold for every order. `sort.Float64s` is modelled as a selection sort.
- Daily rollups, dashboards and the seed command: plain aggregates and one-shot data.
