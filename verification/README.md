# NexusLLM: a verified model of its money, recovery and scheduling core

This project models, in Dafny, the parts of NexusLLM whose correctness depends on
many operations interleaving over shared state, and proves what holds of every
sequence of them.

`dafny verify dfyconfig.toml` checks the whole project.

## What is modelled

**Billing** (`Billing*`, `Pricing`, `WalletReconciler`). Wallets, credit accounts,
authorizations, usage rows and the two append-only ledgers form one value, `Books`.
`BillingBooks` gives the effect of each transaction when it takes place alone; class
`BillingDatabase.Database` performs the same transactions statement by statement,
rolling back on every error path, and is proved equal to them. `BillingInvariant`
states what the books must satisfy, `BillingSafety` that every transaction keeps it,
`BillingTheorems` and `BillingCharges` what follows for customers over whole runs,
`BillingRoundTrips` what each call promises its caller and undoes of another,
`BillingUsage` that the usage rows follow their authorizations, and `BillingLocking`
that transactions which hold a row lock between read and write have the effect of
some serial order. `WalletReconciler` follows the hourly repair through its four reads.

**Replica recovery** (`Runtimes`, `Recovery*`, `Reconciler`, `Replica*`). The
table of runtime rows, the two recovery paths that share one attempt budget (rolling
replacement of an unhealthy row, top-up of an under-replicated model), draining,
the sweep of failed rows, and slot claiming by any number of concurrent claimers.
Class `Reconciler.RuntimeTable` is the procedural form of the reconciler, proved against
the transition system of `Recovery`; `RecoveryRetry` says when it does spawn, and
`RecoveryScenarios` holds the runs that reach what is not ruled out. `ReplicaCapacity` is the transition system of the
claimers, and `ReplicaOvershoot` shows when and how far they go past the capacity.

**GPU packing** (`GpuPacking`, `GpuPacker`, `Sorting`). First-fit-decreasing over an
array of used devices, with a contiguous search and a scattered fallback.

**Rate limiting, stream relay, exposure rules** (`SlidingWindow`, `StreamChunks`,
`StreamRelay`, `ExposureRules`). A pruned set against a full log, an event-relay loop
against its trace, and a sorted two-pass evaluator against an order-free meaning.

### What the model takes as given

- Monetary amounts are exact reals. Unique indexes, foreign keys and non-negativity of
  ledger amounts are modelled, and their violation rolls the transaction back.
- The `CHECK` constraints on account rows (`AllowedRow`,
  migrations/055_billing_hardening.sql:145-161) are modelled in the wallet
  reconciliation and in settlement, which can run into them (in sound books a matching
  settlement never does, `SettlementCommitsIff`). Reservation, release, expiry and
  unplanned debit are modelled without them, so that solvency is proved of the program
  and not borrowed from the database.
- The transition statement of a settlement, release or expiry may fail for an outside
  reason (`fault`); the code handles that like a finished authorization.
- The statements of a visit or a top-up whose errors the reconciler does not look at
  may fail one by one (`Faults`): the lookup of the attempt counter, the read of the
  replacement's state, the writes of states and the writes of pointers. A process that
  dies after its insertion is a lost pointer write.
- One reconciler process is active. Everything else may act between any two of its
  steps; dead rows (failed, stopped, deleted, lost, archived, unloaded) stay dead,
  and other components bring no row into a counted state except through a claim. The
  port-recovery handler (internal/admin/handlers/agent.go:496-504) can break both: it
  sets lost, unhealthy and draining rows to ready.
- A top-up may happen at any moment between visits: the guards under which the
  reconciler decides to top up only remove runs from those considered here.
- A READ COMMITTED claimer counts after its advisory lock is granted. A SERIALIZABLE
  one counts in the snapshot of its first statement, which is the claim itself, so
  before the lock is granted. Of two overlapping SERIALIZABLE claims of one model each
  reads what the other inserts, so the database fails the second one.
- JSON coding, glob matching and case folding are parameters; where it matters, coding
  is required to round-trip, never to produce the end marker, and its two partial
  parses to agree on the number of choices. The library sort is
  any sort that returns an ascending permutation.

### What does not hold, and exactly when

- Settlement finds the money through its input, not through the authorization. It
  keeps the holds right if and only if the caller names the authorization's own
  account and type (`SettleKeepsHoldsIffMatched`); a run reaches the other case
  (`WrongAccountPays`). On its own account it commits if and only if the usage it names
  exists and is not charged yet (`SettlementCommitsIff`).
- Release reports success without giving the hold back exactly when its transition
  statement fails on an active authorization (`SilentReleaseIff`).
- Under best effort a settlement that comes too late has no once-only guard: it takes
  money exactly under `TakesUnplanned`, and again on every repetition
  (`LateSettleMovesMoneyIff`, `LateSettleChargesEveryTime`). A failed transition
  statement on an active authorization leads to two charges (`FaultChargesTwice`).
- The wallet reconciler sums authorizations before it takes the row lock, and writes
  that sum. Over all runs, a repair that commits keeps the books sound if and only if
  the holds are still the same at the lock (`ReconcileKeepsSoundIff`); two reservations
  around the sum break them (`SecondReservationIsForgotten`).
- Alone, it leaves sound books as they are if and only if the ledger explains the
  balance and there are no postpaid holds, or the wallet table refuses the repaired row
  (`LeavesSoundBooksAloneIff`). An opening balance that is in no ledger entry is wiped
  out if the account was never charged and holds nothing; otherwise the repair fails
  every time (`UnexplainedBalanceIsWiped`).
- `stopping` rows are counted, `draining` ones are not, so stopping a drained row adds
  a counted row without a claim, and a legal run exceeds the capacity
  (`DrainAndStopOvershoots`). Everything that can follow stays within it if and only if
  the counted rows and the rows already bound to come leave room (`StopIsHarmlessIff`).
  Rows that are not shutting down are not affected (`LiveRowsWithinCapacity`). A stopped
  row may also share its index with the row that was given it meanwhile
  (`StoppedRowSharesNumber`, exactly then: `StopKeepsNumbersIff`).
- The stuck-runtime sweeper and the admin handlers claim in SERIALIZABLE transactions,
  as the usage pattern of internal/replicaguard/guard.go:31 prescribes, so they count
  before they have the lock. Such a claim overshoots if and only if its snapshot was
  below the limit, no other SERIALIZABLE claim of the model has committed since, and the
  count at the lock is not below the limit (`SerializableOvershootsIff`). However many
  there are, a model never has more than capacity plus one rows
  (`LiveRowsWithinCapacity`), and some run gets there (`BoundIsReached`).
- While start tasks cannot be queued, each attempt leaves a failed row and the
  predecessor unchanged, so rows accumulate without bound
  (`EnqueueFailuresAreUnbounded`). A row that is not started or not linked adds at most
  sixteen to the bound on a tree, a failed lookup at most thirty-one (`BoundedRecovery`).
- A failed lookup of the attempt counter counts as a fresh chain: the new row, and the
  row it replaces, start again at one. Chains stay within the counter if and only if the
  replaced row was the first of its chain (`FailedLookupKeepsChainsIff`,
  `FailedLookupLengthensChain`). The counter never passes five.
- Two rows recovered from one row are both alive only if a read or write of some visit
  was lost (`TwoLiveMeansLoss`), as a lost link write shows (`LostLinkLeavesTwoLive`).
- The timeout and exhaustion writes are unconditional: they take a serving replica
  out of service exactly when it became ready after it was read
  (`TakesOutOfServiceIff`, `LateTimeoutHappens`).
- The backoff binds the rolling replacement only. A top-up that picks the waiting row
  ignores it (`SpawnsDuringCooldownIff`, `TopUpIgnoresCooldown`).
- The limiter's set member is the millisecond, so for limits of two or more any number
  of requests in one millisecond is admitted (`BurstIsAdmitted`).
- A choice of pure reasoning drops its whole chunk, including another choice's text or
  stop signal (`VisibleIsLostIff`). Reasoning content passes when the decoder accepts
  a spelling of the field that the textual search misses, or when the cleaned chunk
  cannot be encoded (`ForwardedReasoningIff`).

### Where code and documentation disagree, the model follows the code

- `actual_cost` is stored uncapped (internal/billing/settlement.go:65-73), although
  migrations/054_billing_core_tables.sql:289 says it is capped; the charge is capped.
- A duplicate reservation returns no authorization id
  (internal/billing/reservation.go:138-139, against lines 71-72).
- `recovery_attempt` is said to equal the chain length
  (internal/ha/reconciler.go:1094-1097); it is an upper bound, and its lead grows with
  every replacement of one row (`ReplacementInheritsLead`).
- A vanished predecessor is said to start a fresh chain
  (internal/ha/reconciler.go:290-293). If it has vanished, the insertion fails the
  foreign key of migrations/019_ha_replicas.sql:49; but the same branch is taken when the
  lookup fails for any other reason, and then the insertion succeeds.
- The comment at internal/billing/sweep/wallet.go:98 adds unplanned debits; the query
  subtracts them.
- The active-connection count of a draining row is the constant 0
  (internal/ha/reconciler.go:1390), so draining ends after two seconds.
- An empty delta object decodes to a present delta, so it is filled in only on stop
  chunks (internal/models/types.go:52-75, against line 19).

## Model

| member | source | states |
|---|---|---|
| BillingTheorems.EveryRunReconciles | internal/billing/reservation.go:73-369 | After any sequence of reservations, settlements under either policy, releases and expiries from opening books: each wallet's reserved amount is the sum of its active estimates and lies between 0 and the balance; the balance is opening minus debits and unplanned debits; everything ever reserved is held, debited or released; credit exposure is active holds plus settled, equals authorized minus released entries and stays within the limit; each finished authorization's entries add up to its estimate |
| BillingSafety.RunKeepsSound | internal/billing/settlement.go:46-392 | The same invariant, together with the references between rows, is inductive over arbitrary runs from any sound books |
| BillingSafety.StepKeepsSound | internal/billing/settlement.go:46-55 | Every single transaction, committing or failing on any path, keeps the books sound |
| BillingSafety.ReservePrepaidKeepsSound | internal/billing/reservation.go:87-165 | A prepaid reservation keeps the wallet solvent and holds exactly the new estimate more |
| BillingSafety.ReservePostpaidKeepsSound | internal/billing/reservation.go:168-257 | A postpaid reservation keeps exposure within the limit and equal to its ledger |
| BillingSafety.GiveBackKeepsSound | internal/billing/reservation.go:262-369 | Releasing or expiring returns a whole estimate and charges nothing |
| BillingSafety.CommitPrepaidKeepsSound | internal/billing/settlement.go:58-160 | A prepaid commit divides the estimate exactly into charge and release and never overdraws |
| BillingSafety.CommitPostpaidKeepsSound | internal/billing/settlement.go:163-262 | A postpaid commit moves the charge from held to settled exposure and releases the rest |
| BillingSafety.LateSettleKeepsSound | internal/billing/settlement.go:267-302 | Late recovery under either policy keeps the books sound, whatever its input names |
| BillingSafety.UnplannedDebitKeepsSound | internal/billing/settlement.go:307-392 | An unplanned debit can only consume money that no authorization holds |
| BillingTheorems.FinishedForever | internal/billing/settlement.go:65-81 | Once an authorization has left active, no run whatever changes its row again |
| BillingCharges.SettlementCommitsIff | internal/billing/settlement.go:65-146 | In sound books a settlement of an active authorization on its own account commits if and only if the usage it names exists and has no charge yet; then it charges exactly min(cost, estimate), takes the whole hold off, records the reported cost and the charge, and touches nothing else; otherwise it changes nothing |
| BillingCharges.RunKeepsAgreement | migrations/055_billing_hardening.sql:163-190 | While callers name the authorization's usage, every charge in either ledger names it too |
| BillingCharges.SettlementAlwaysCommits | internal/billing/settlement.go:65-146 | Then a settlement of an active authorization is never refused by an index, check or key, and posts exactly min(cost, estimate) |
| BillingTheorems.RepeatedCallsMoveNothing | internal/billing/settlement.go:267-302 | Any sequence of further Settle, Release and expiry calls on a finished authorization leaves every account and ledger alone, if it is committed or the policy is write-off |
| BillingTheorems.LateSettleMovesMoneyIff | internal/billing/settlement.go:267-392 | A late settlement moves money if and only if the policy is best effort, the account is prepaid, the authorization is known and not committed, and unreserved funds cover the cost |
| BillingTheorems.LateSettleChargesEveryTime | internal/billing/settlement.go:307-392 | n identical late settlements take n times the cost |
| BillingCharges.WriteOffPlansEverything | internal/billing/settlement.go:281-302 | Under write-off no run posts an unplanned debit |
| BillingCharges.ChargesOfAUsage | internal/billing/settlement.go:46-392 | Over any run under either policy, all wallet charges of a usage add up to min(actual, estimate) of its authorization, if that committed, plus the costs of exactly those late settlements that met the condition for an unplanned debit |
| BillingCharges.WriteOffTakesNothing | internal/billing/settlement.go:281-302 | Under write-off there are no such late costs |
| BillingCharges.ChargedOnceAndCapped | internal/billing/settlement.go:85-94 | So under write-off a usage is charged once, at most its estimate, and nothing unless its authorization committed |
| BillingTheorems.SettleKeepsHoldsIffMatched | internal/billing/settlement.go:96-135 | A settlement that commits keeps accounts and active authorizations in agreement if and only if its input names the authorization's account and type |
| BillingTheorems.WrongAccountPays | internal/billing/settlement.go:96-118 | A run from opening books in which a settlement that names another account commits: that account pays and loses its hold, and the right one keeps its hold with nothing behind it |
| BillingTheorems.SilentReleaseIff | internal/billing/reservation.go:269-281 | Releasing an active authorization reports success and leaves it active if and only if the transition statement failed |
| BillingTheorems.FaultChargesTwice | internal/billing/settlement.go:75-81 | A transition statement that fails on an active authorization lets one usage be charged twice under best effort |
| BillingRoundTrips.ReserveSucceedsIff | internal/billing/reservation.go:73-257 | A reservation succeeds if and only if the account is active and has room and the usage exists without an authorization; a refusal changes nothing |
| BillingRoundTrips.ReserveErrors | internal/billing/reservation.go:87-142 | Which refusal reports which error, exactly |
| BillingRoundTrips.ReserveReturnsItsRow | internal/billing/reservation.go:126-164 | The returned id names a new, active authorization with the caller's usage, account, type and estimate; exactly that estimate is held on exactly that account, and a pending usage is reserved |
| BillingRoundTrips.GiveBackSucceedsIff | internal/billing/reservation.go:284-369 | In sound books giving back an active authorization succeeds if and only if it is prepaid or the usage row exists; it ends in the right status, lowers exactly that account's hold by exactly the estimate, leaves balance and settled alone and marks a reserved usage returned |
| BillingRoundTrips.ReleaseAndExpirySucceed | internal/billing/sweep/expiry.go:102-227 | Release and expiry of an active authorization with its own usage always succeed, in status released and expired, unless the transition statement fails |
| BillingRoundTrips.ReserveThenRelease | internal/billing/reservation.go:262-306 | Reserving and releasing by the returned id restores both account tables |
| BillingRoundTrips.ReserveThenSettle | internal/billing/settlement.go:58-262 | Reserving and settling by the returned id charges min(cost, estimate) and leaves no hold |
| BillingRoundTrips.LateSettlementResult | internal/billing/settlement.go:267-392 | A settlement that comes too late either charges the cost with one unplanned entry, or disputes the usage and moves no money, or is a no-op on a committed authorization; exactly when it fails, it changes nothing |
| BillingRoundTrips.SettlementOfNothing | internal/billing/settlement.go:46-55 | An unknown account type and an unknown authorization are reported and change nothing |
| BillingRoundTrips.EvidenceIsReplacedByTheCharge | internal/billing/sweep/pending.go:216-282 | Evidence for a stale usage sets its cost only, and the settlement that follows replaces it by the capped charge |
| BillingRoundTrips.StaleUsageIsDisputed | internal/billing/sweep/pending.go:288-323 | A stale usage without evidence ends disputed, with its hold given back |
| BillingUsage.UsagesFollowAuthorizations | internal/billing/reservation.go:144-150 | In every run a usage that neither the pending sweep nor a settlement with a failed transition wrote to is reserved while its authorization is active, charged with exactly the capped cost once it is committed, and pending only without one |
| BillingLocking.NextKeepsLockSafe | internal/billing/reservation.go:94-112 | Whoever holds an account row lock has read the row's current contents, and each step equals the whole transactions it completes |
| BillingLocking.LockingLinearises | internal/billing/settlement.go:324-372 | Any interleaving of prepaid reservations, postpaid reservations and unplanned debits that hold a row lock between read and write, with each other and with the remaining transactions, leaves the books of some serial order |
| BillingLocking.InterleavingsStaySound | internal/billing/reservation.go:87-165 | So every such interleaving is solvent and reconciles |
| BillingLocking.FreeRowsAreNotWaitedFor | internal/billing/reservation.go:94-123 | A transaction whose row nobody holds goes ahead at once; one that reads and writes undisturbed has the whole effect, an aborted one none, and both free the row |
| BillingLocking.UnlockedReadsOverdraw | internal/billing/reservation.go:94-123 | Without the lock two reservations that each fit write a row that only the wallet table's check stands against, exactly when their sum exceeds what is available |
| BillingDatabase.Database.ReservePrepaidTx | internal/billing/reservation.go:87-165 | The statements of a prepaid reservation, with rollback, have the transaction's effect and outcome |
| BillingDatabase.Database.ReservePostpaidTx | internal/billing/reservation.go:168-257 | The same for a postpaid reservation and its authorized entry |
| BillingDatabase.Database.ReserveTx | internal/billing/reservation.go:73-84 | Dispatch on the account type; an unknown type changes nothing |
| BillingDatabase.Database.GiveBackTx | internal/billing/reservation.go:308-369 | The statements that return a reservation, with rollback when a row is missing or an index refuses the entry |
| BillingDatabase.Database.ReleaseTx | internal/billing/reservation.go:262-306 | Release of an authorization that is not active, or whose transition statement fails, is a silent success |
| BillingDatabase.Database.ExpireTx | internal/billing/sweep/expiry.go:102-227 | Expiry returns the reservation like a release and ends in expired |
| BillingDatabase.Database.SettlePrepaidTx | internal/billing/settlement.go:58-160 | Transition, cap, wallet update with its row checks, debit, release of the rest and usage update have the transaction's effect and outcome on every path |
| BillingDatabase.Database.SettlePostpaidTx | internal/billing/settlement.go:163-262 | The same for the credit account and its ledger |
| BillingDatabase.Database.SettleTx | internal/billing/settlement.go:46-55 | Dispatch on the input's account type |
| BillingDatabase.Database.HandleExpiryRecovery | internal/billing/settlement.go:267-302 | A committed authorization makes it a no-op; otherwise the policy decides |
| BillingDatabase.Database.UnplannedDebitTx | internal/billing/settlement.go:307-392 | Direct debit, dispute when funds are short or the account is postpaid |
| BillingDatabase.Database.SumLedger | internal/billing/sweep/wallet.go:164-177 | The loop computes top-ups minus debits minus unplanned debits of the account |
| BillingDatabase.Database.ReconcileWalletTx | internal/billing/sweep/wallet.go:91-222 | The locked repair writes a fresh ledger balance and the earlier reserved sum, posts an adjustment only for real drift, and rolls back when the wallet table's checks refuse the row |
| WalletReconciler.LeavesSoundBooksAloneIff | internal/billing/sweep/wallet.go:97-207 | With nothing beside it the reconciler leaves sound books alone if and only if the ledger explains the balance and there are no postpaid holds, or the explained balance does not cover the holds so that the table refuses the repair; and it reports an error exactly in the second case |
| WalletReconciler.UnexplainedBalanceIsWiped | internal/billing/sweep/wallet.go:199-207 | After any run from an opening balance that is in no ledger entry, a repair sets the wallet to zero if the account was never charged and holds nothing, and is refused otherwise |
| WalletReconciler.RepairKeepsSoundIff | internal/billing/sweep/wallet.go:147-214 | An accepted repair leaves the books sound, with the ledger now explaining the balance, if and only if the sum it writes is what prepaid authorizations hold at the lock |
| WalletReconciler.RepairIsAudited | internal/billing/sweep/wallet.go:179-207 | An accepted repair sets the balance to what the ledger explains and posts an adjustment of exactly the difference, if and only if that reaches the threshold |
| WalletReconciler.ReconcileKeepsSoundIff | internal/billing/sweep/wallet.go:91-222 | With its four reads at any four points of any run, a reconciliation that commits a repair leaves the wallet holding what is reserved, and the books sound, if and only if the holds at the lock are those that were summed |
| WalletReconciler.SecondReservationIsForgotten | internal/billing/sweep/wallet.go:117-136 | From a topped-up wallet, two reservations around the authorization sum make the reconciler see drift and then forget the second one |
| Pricing.CostWithinEstimate | internal/billing/types.go:121-142 | With cached rates no higher than input rates, usage within what was reserved for costs between 0 and the estimate |
| Pricing.EstimateIsLinear | internal/billing/types.go:138-142 | An estimate is a price per input token plus a price per output token |
| Pricing.CachingSaves | internal/billing/types.go:121-134 | A cached token costs its own rate instead of the input rate; cached tokens beyond the input are billed on top |
| Pricing.ReservationCoversIff | internal/billing/types.go:121-142 | The estimate covers the cost on all such price lists if and only if prompt and output stay within it, counting cached tokens beyond the input |
| Pricing.CapNeverFires | internal/billing/settlement.go:85-94 | A request within its reservation is debited its computed cost exactly |
| Runtimes.StateClasses | migrations/032_fix_claim_replica_slot_failed_state.sql:38-49 | A state is counted if and only if the container is not gone, draining or unhealthy; all serving and starting states are |
| Runtimes.NextReplicaIndex | internal/ha/reconciler.go:333-351 | The unbounded search ends and returns the least index no counted row of the model uses, at most the number of counted rows |
| Runtimes.IndexesWithinCount | internal/ha/reconciler.go:333-351 | There are no more indexes in use than counted rows |
| Runtimes.PassedIndexes | internal/ha/reconciler.go:345-350 | The search never passes more indexes than are in use |
| ReplicaCapacity.StepKeepsRoomy | internal/replicaguard/guard.go:59-89 | Every begin, claim, insert, commit, rollback and state change by anyone keeps the sum of a model's rows and the rows bound to come within its capacity, plus one if it has SERIALIZABLE claimers |
| ReplicaCapacity.RunKeepsRoomy | internal/replicaguard/guard.go:30-43 | The same over any interleaving of any number of claimers of both kinds |
| ReplicaCapacity.BeginKeepsRoomy | cmd/admin/main.go:913-922 | A snapshot below the limit entitles its claimer to a row, and that row is accounted for at once |
| ReplicaCapacity.ClaimKeepsRoomy | internal/ha/reconciler.go:617-658 | A locking claim is granted only with the lock and with room seen under it; a SERIALIZABLE one adds nothing to what its snapshot entitled it to |
| ReplicaCapacity.CommitTakesOne | internal/admin/handlers/runtime.go:557-620 | A committed row is one of those that were bound to come: that of the lock's holder or the one of all SERIALIZABLE claims, whose commit fails the others |
| ReplicaCapacity.CommitKeepsRoomy | internal/ha/reconciler.go:670-701 | So a commit never takes a model past its bound |
| ReplicaCapacity.LiveRowsWithinCapacity | internal/replicaguard/guard.go:7-28 | From an empty table, with claimers of both kinds, drains and stops in any order, live rows of a model never exceed desired plus surge, or one more if it has SERIALIZABLE claimers, and never share an index |
| ReplicaCapacity.ServingRowsWithinSpec | internal/replicaguard/guard.go:7-28 | In every run from an empty table whose claims follow their model's spec, the rows that are ready, active, warm or idle number at most desired plus surge (of at least one), plus one if the model has SERIALIZABLE claimers, and no two of them share an index |
| ReplicaCapacity.CountedRowsWithinCapacity | migrations/032_fix_claim_replica_slot_failed_state.sql:18-51 | All counted rows keep to the same bound when each stop of a drained row leaves room for the rows bound to come, and every index is below it |
| ReplicaCapacity.CountedNumbersDistinct | internal/ha/reconciler.go:660-683 | Counted rows never share an index if no row is stopped whose index was given away meanwhile |
| ReplicaCapacity.InsertKeepsNumbered | internal/ha/reconciler.go:660-683 | An index found under the lock is free among counted rows |
| ReplicaCapacity.CommitKeepsNumbered | internal/ha/reconciler.go:670-701 | It still is when the row is committed |
| ReplicaOvershoot.SerializableOvershootsIff | cmd/admin/main.go:904-1009 | From any state, a SERIALIZABLE claim that gets the lock overshoots if and only if its snapshot was below the limit, no other such claim of the model has committed since, and the count by then is not below the limit |
| ReplicaOvershoot.DoomedIff | internal/admin/handlers/controller.go:248-285 | A claim is doomed if and only if another SERIALIZABLE claim of its own model commits |
| ReplicaOvershoot.RollbackFrees | internal/ha/reconciler.go:628-658 | A claim that is rolled back leaves no trace and frees its lock |
| ReplicaOvershoot.FinishFails | internal/admin/handlers/controller.go:248-285 | A SERIALIZABLE claim overtaken by another one of the model leaves no row |
| ReplicaOvershoot.LockedClaimNeverOvershoots | internal/ha/reconciler.go:617-701 | From any state, a claim that counts under the lock never does |
| ReplicaOvershoot.ComingRowsArrive | internal/replicaguard/guard.go:30-43 | In any state all rows bound to come to a model can come, whatever the count is by then |
| ReplicaOvershoot.BoundIsReached | cmd/admin/main.go:904-1009 | The bound is exact: some legal run from an empty table reaches desired plus surge (of at least one), and one more if the model has SERIALIZABLE claimers |
| ReplicaOvershoot.StopIsHarmlessIff | internal/ha/reconciler.go:1452-1478 | After stopping a drained row every legal continuation stays within the bound if and only if counted rows plus rows bound to come were below it before |
| ReplicaOvershoot.StopKeepsNumbersIff | internal/ha/reconciler.go:1452-1478 | Stopping a drained row keeps the indexes of counted rows distinct, now and after the inserts under way, if and only if its own index is not in use |
| ReplicaOvershoot.StoppedRowSharesNumber | internal/ha/reconciler.go:660-683 | A run from an empty table that ends with two counted rows of one index |
| ReplicaOvershoot.DrainAndStopOvershoots | internal/ha/reconciler.go:1452-1478 | Legal claims and one drain and stop reach three counted rows with one desired and a surge of one |
| ReplicaOvershoot.UnguardedInsertsOvershootIff | internal/replicaguard/guard.go:7-19 | Two claimers that read before either inserts overshoot if and only if exactly one slot was free |
| Recovery.CooldownIsExact | internal/ha/reconciler.go:1105-1113 | Up to a shift of 28 the 64-bit computation of the backoff equals min(30 * 2^n, 900) seconds |
| Recovery.CooldownOverflowsAt29 | internal/ha/reconciler.go:1105-1113 | At 29 it wraps to a negative duration |
| RecoveryInvariant.StepEffect | internal/ha/reconciler.go:1115-1311 | Whatever fails, a step of the reconciler or its environment either moves states and clears pointers, or adds one row and perhaps links its predecessor to it; without failures it clears only pointers to dead rows, continues the counter, and links what it starts |
| RecoveryInvariant.StepKeepsInv | internal/ha/reconciler.go:543-573 | Whatever fails, every step keeps: chains point backwards, counters are at most five, replacements are of the same model |
| RecoveryInvariant.RunKeepsInv | internal/ha/reconciler.go:81-146 | The same over any run |
| RecoveryInvariant.RunKeepsDeep | internal/ha/reconciler.go:283-297 | Over any run without a failed lookup, chains are no longer than the counter |
| RecoveryInvariant.RunKeepsOneLive | internal/ha/reconciler.go:1126-1209 | Over any run without a lost read or write, of the rows recovered from one row only the linked one may be alive |
| RecoveryBound.StepShrinksTotal | internal/ha/reconciler.go:543-773 | No step increases a row's descendants plus the potential 2^(5-attempt)-1 of all recoverable rows below it, except by sixteen for a new row that is not started or not linked and by thirty-one for a failed lookup |
| RecoveryBound.RunShrinksTotal | internal/ha/reconciler.go:118-126 | Nor does any run, beyond the sum of these surcharges |
| RecoveryBound.HubSpawnShrinks | internal/ha/reconciler.go:1273-1303 | A rolling replacement is paid for by raising the predecessor's counter |
| RecoveryBound.TopUpShrinks | internal/ha/reconciler.go:118-126 | A top-up is paid for by retiring the terminal predecessor |
| RecoveryBound.UnlinkedSpawnCosts | internal/ha/reconciler.go:767-773 | A new row whose predecessor stays as it was costs every tree it is in itself and its own budget |
| RecoveryBound.ResetCosts | internal/ha/reconciler.go:288-294 | A failed lookup gives the new row a fresh budget and may reset that of its predecessor |
| RecoveryBound.BoundedRecovery | internal/ha/reconciler.go:283-297 | However the two recovery paths interleave and whatever fails, a row with attempt a, wherever it stands in a chain, gets at most 2^(5-a)-1 descendants plus sixteen for each new row not started or not linked and thirty-one for each failed lookup |
| RecoveryBound.EveryTreeIsBounded | internal/ha/reconciler.go:1085-1099 | In every state reachable from an empty table, every row d deep in its chain has at most 2^(5-d)-1 descendants plus the same surcharges |
| RecoveryBound.EnqueueFailuresAreUnbounded | internal/ha/reconciler.go:767-773 | While start tasks cannot be queued, a row gets any number of descendants |
| RecoveryTheorems.OneLiveReplacement | internal/ha/reconciler.go:1126-1209 | In every state reached without a lost read or write, two different rows recovered from one row are never both alive |
| RecoveryTheorems.TwoLiveMeansLoss | internal/ha/reconciler.go:1194-1204 | In any run from an empty table, two live replacements of one row mean that a read or write of some visit was lost |
| RecoveryTheorems.AttemptsAndBackoffBounded | internal/ha/reconciler.go:1079-1113 | In every reachable state, whatever fails, the counter is at most five and the backoff computed from it does not overflow |
| RecoveryTheorems.ChainsWithinCounter | internal/ha/reconciler.go:1092-1098 | In every state reached without a failed lookup, chain length is at most the counter |
| RecoveryTheorems.FailedLookupKeepsChainsIff | internal/ha/reconciler.go:288-294 | A replacement spawned after a failed lookup keeps chains within the counter if and only if the replaced row is the first of its chain |
| RecoveryTheorems.ReplacementInheritsLead | internal/ha/reconciler.go:1085-1098 | A replacement is one deeper than its predecessor and inherits how far the counter leads the chain, or falls behind by the chain's length after a failed lookup; the predecessor's lead grows by one with every linked replacement |
| RecoveryTheorems.TakesOutOfServiceIff | internal/ha/reconciler.go:1182-1205 | A reconciler step takes a serving replica out of service if and only if it times out, or exhausts, a row that became ready after it was read |
| RecoveryTheorems.UndisturbedStepKeepsServing | internal/ha/reconciler.go:1010-1014 | If nothing moved between read and write, no reconciler step takes a replica out of service |
| RecoveryTheorems.DrainsBehindServingIff | internal/ha/reconciler.go:1141-1154 | A reconciler step puts a row into draining if and only if it visits the row, the row is unhealthy, and its replacement, of the same model, was read as ready, active, warm or idle |
| RecoveryTheorems.StopsOnlyDrained | internal/ha/reconciler.go:1452-1478 | A reconciler step puts a row into stopping if and only if it was draining and the stop was queued; otherwise it is draining again |
| RecoveryTheorems.SweepIsExact | internal/ha/reconciler.go:1512-1555 | The failed sweep stops exactly the confirmed and the expired failures and touches nothing else |
| RecoveryTheorems.FailureStartsCooldown | internal/ha/reconciler.go:1156-1205 | A failed or timed-out replacement sets the retry time from its own counter and clears the pointer |
| RecoveryTheorems.NothingSpawnsDuringCooldown | internal/ha/reconciler.go:1211-1231 | Whatever else happens to a waiting row, in no run without a top-up that picks it is a row recovered from it before its retry time |
| RecoveryTheorems.SpawnsDuringCooldownIff | internal/ha/reconciler.go:259-271 | While a row waits, a step adds a row recovered from it if and only if it is a top-up that picks it within the attempt budget |
| RecoveryTheorems.FailedReplacementBlocksSpawning | internal/ha/reconciler.go:1105-1231 | After a replacement with counter a failed, its predecessor gets no rolling replacement for min(30 * 2^(a+1), 900) seconds |
| RecoveryRetry.VisitSpawnsIff | internal/ha/reconciler.go:1211-1303 | A visit to a row without replacement spawns if and only if its retry time has come (or thirty seconds have passed before the first attempt), fewer than five attempts are used or the lookup fails, and the insertion goes through; the new row and its predecessor then look exactly as stated, and an exhausted row is marked lost |
| RecoveryRetry.TopUpSpawnsIff | internal/ha/reconciler.go:118-126 | The same for a top-up, which continues its predecessor's counter and links it |
| RecoveryRetry.VisitForgetsOrWaits | internal/ha/reconciler.go:1126-1139 | A replacement that cannot be read is forgotten at once without a new wait; one that is still starting within its time is left alone |
| RecoveryRetry.RetryHappens | internal/ha/reconciler.go:1156-1231 | After a failed replacement, whatever else happens, the first visit at or after the retry time that finds budget left and starts a replica links it to the row |
| RecoveryRetry.BackoffValues | internal/ha/reconciler.go:1105-1113 | The backoff doubles from thirty seconds up to fifteen minutes |
| RecoveryScenarios.LostLinkLeavesTwoLive | internal/ha/reconciler.go:1299-1303 | A run from an empty table in which a lost link write leads to two live replacements |
| RecoveryScenarios.FailedLookupLengthensChain | internal/ha/reconciler.go:288-294 | A run in which a failed lookup leads to a chain of length two with counter one |
| RecoveryScenarios.LateTimeoutHappens | internal/ha/reconciler.go:1182-1205 | A run in which a serving replacement is timed out |
| RecoveryScenarios.TopUpIgnoresCooldown | internal/ha/reconciler.go:259-271 | A run in which a top-up spawns from a row that is still waiting |
| Reconciler.RuntimeTable.MostRecentUnrepairedFailure | internal/ha/reconciler.go:259-271 | A latest failed, stopped or lost row of the model without replacement, and none only if there is none |
| Reconciler.RuntimeTable.InsertReplica | internal/ha/reconciler.go:660-701 | The new row carries the least free index, the counter and its predecessor |
| Reconciler.RuntimeTable.ExecuteReturningID | internal/ha/reconciler.go:543-791 | Lookup, gate, claim, insertion and the enqueue-failure path, each failing or not, have the effect and outcome of one spawn |
| Reconciler.RuntimeTable.HandleUnhealthyReplica | internal/ha/reconciler.go:1211-1311 | All branches of a visit, with its writes lost or not, have the effect of the protocol step |
| Reconciler.RuntimeTable.CheckProgress | internal/ha/reconciler.go:1126-1209 | So have the branches for a replacement that was started before |
| Reconciler.RuntimeTable.TopUpModel | internal/ha/reconciler.go:118-126 | The new row and the link from its predecessor, if that write is not lost, are the top-up step |
| Reconciler.RuntimeTable.StopDrainedRuntime | internal/ha/reconciler.go:1428-1490 | Stop with fallback to draining is the stop step |
| Reconciler.RuntimeTable.SweepFailedContainers | internal/ha/reconciler.go:1512-1555 | The two updates together are the failed sweep |
| GpuPacking.PlaceIsGood | internal/gpu/packing.go:58-75 | A placed request gets as many free, ascending, large enough positions as it asked for |
| GpuPacking.RefusedMeansImpossible | internal/gpu/packing.go:93-126 | A request is refused only when no set of free devices could serve it |
| GpuPacking.PlanIsSound | internal/gpu/packing.go:58-75 | Over a whole packing, each request gets only devices free at the start, and they end up used |
| GpuPacking.PlanIsDisjoint | internal/gpu/packing.go:58-75 | No position is given to two requests |
| GpuPacking.PlanIsMaximal | internal/gpu/packing.go:58-75 | At the end no refused request fits on what is left |
| GpuPacking.PlanConserves | internal/gpu/packing.go:58-75 | Used devices grow by exactly the counts of the placed requests |
| GpuPacking.BlocksArePreferred | internal/gpu/packing.go:93-112 | If a contiguous block exists at a request's turn, it gets the one with the lowest start |
| GpuPacking.ScatteredAreFirst | internal/gpu/packing.go:115-126 | Without a block, no free device with enough memory is passed over for a later one |
| GpuPacker.FindContiguousBlock | internal/gpu/packing.go:93-112 | The nested loops return the first block, if any |
| GpuPacker.FindNonContiguous | internal/gpu/packing.go:115-126 | The loop returns the first sufficient devices, if there are enough |
| GpuPacker.Search | internal/gpu/packing.go:58-75 | Contiguous first, scattered otherwise |
| GpuPacker.MarkUsed | internal/gpu/packing.go:58-75 | Exactly the chosen positions become used |
| GpuPacker.ListAvailable | internal/gpu/packing.go:33-45 | The available devices, in order |
| GpuPacker.AvailableAre | internal/gpu/packing.go:38-44 | Exactly the devices of the input with status available take part |
| GpuPacker.PackModels | internal/gpu/packing.go:33-76 | The result is the packing of some sorted permutations of the inputs; for distinct names and device numbers each request of the input is assigned exactly as many suitable devices of the input as it asked for, or unscheduled because no set of unassigned suitable devices is large enough, and no device is assigned twice |
| GpuPacker.PackingServes | internal/gpu/packing.go:33-76 | That meaning follows for every order the unstable sorts may choose |
| GpuPacker.PackingIsSound | internal/gpu/packing.go:33-76 | Every request is either assigned or unscheduled, never both; an assignment is exactly as many ascending device numbers of available devices with enough memory |
| GpuPacker.PackingIsDisjoint | internal/gpu/packing.go:33-76 | No device serves two models |
| GpuPacker.PackingIsMaximal | internal/gpu/packing.go:33-76 | No unscheduled request could be served by the unassigned devices, contiguous or not |
| GpuPacker.PackingConserves | internal/gpu/packing.go:33-76 | As many devices are assigned as the placed requests asked for |
| Sorting.SortBy | internal/gpu/packing.go:46-55 | An ascending permutation, with nothing said about equal keys |
| SlidingWindow.CheckAgrees | internal/policy/engine.go:876-889 | One call decides as the full log would and leaves exactly the admitted milliseconds of the last window |
| SlidingWindow.RejectedIff | internal/policy/engine.go:880-887 | A request is rejected if and only if at least limit different admitted milliseconds lie in the window that ends now |
| SlidingWindow.WindowRefinesLog | internal/policy/engine.go:870-894 | The same over any run of calls whose times do not decrease, with keys expiring whenever they may |
| SlidingWindow.ExpiryIsInvisible | internal/policy/engine.go:885 | Expiry of the key changes neither decision nor set |
| SlidingWindow.KeyLivesAsLongAsItsMembers | internal/policy/engine.go:885 | The key expires exactly when its last member leaves the window |
| SlidingWindow.WindowsAreBounded | internal/policy/engine.go:870-894 | Every half-open window, wherever it ends, holds at most the limit of admitted milliseconds |
| SlidingWindow.RequestsAreBounded | internal/policy/engine.go:884 | It bounds requests if no two calls share a millisecond or the limit is at most one |
| SlidingWindow.BurstIsAdmitted | internal/policy/engine.go:884 | Otherwise not: with a limit of two or more a burst of any size in one millisecond is admitted |
| SlidingWindow.Limiter.CheckSlidingWindow | internal/policy/engine.go:870-894 | Prune, count, reject or record, with renewed expiry |
| StreamChunks.CleanChoices | internal/models/types.go:49-89 | The loop cleans every choice in place and reports exactly whether anything changed and whether any choice was pure reasoning |
| StreamChunks.NormalizeStreamChunk | internal/models/types.go:23-105 | What is forwarded, rewritten or dropped for every payload, whether it parses or not and whether the cleaned chunk can be encoded or not |
| StreamChunks.ForwardedReasoningIff | internal/models/types.go:13 | A forwarded chunk carries reasoning if and only if the payload did and the textual search missed it or the cleaned chunk could not be encoded |
| StreamChunks.NormalizeIsIdempotent | internal/models/types.go:8-22 | Normalising a forwarded chunk again changes nothing |
| StreamChunks.ForwardedSaysTheSame | internal/models/types.go:8-22 | What is forwarded keeps every choice's text, stop signal and other content; only a missing text may become an empty one |
| StreamChunks.SpelledReasoningIsHidden | internal/models/types.go:13-16 | Reasoning in a payload that spells the field name out never reaches the client, unless re-encoding fails, and the chunk is dropped if and only if some choice has reasoning, no stop signal and no text |
| StreamChunks.EmptyDeltaIsFilled | internal/models/types.go:17-19 | A stop choice of a payload with an empty delta reaches the client with a text |
| StreamChunks.VisibleIsLostIff | internal/models/types.go:14-20 | Text or a stop signal is dropped if and only if another choice of the chunk is pure reasoning; with one choice it never is |
| StreamRelay.StreamChat | internal/proxy/handler.go:1341-1481 | The client sees exactly the trace; status is success if and only if upstream sent the end marker; the counts returned for accounting are the latest |
| StreamRelay.TraceKeepsOrder | internal/proxy/handler.go:1369-1481 | The lines before the end that the client gets to see stand in the trace in upstream order, before the added tail |
| StreamRelay.TraceIsFullyUpstream | internal/proxy/handler.go:1369-1481 | Every position before the tail is that of such a line, so nothing is added or repeated |
| StreamRelay.LineStandsVerbatim | internal/proxy/handler.go:1399-1411 | A line outside the event data stands there verbatim, a data line with its normalised payload, unchanged when it needs no cleaning |
| StreamRelay.PayloadIsTrimmed | internal/proxy/handler.go:1412 | The payload of a data line is what stands between the white space |
| StreamRelay.ForwardedNeverEnds | internal/proxy/handler.go:1404-1443 | Nothing forwarded before the end is an end marker or a synthesized event |
| StreamRelay.OneEndMarkerLast | internal/proxy/handler.go:1371-1443 | For all upstream lines the client sees exactly one end marker and it is last |
| StreamRelay.UsageEventIsRight | internal/proxy/handler.go:1419-1437 | A synthesized usage event stands just before the end if and only if it is wanted, upstream ended properly, reported tokens and sent no usage chunk, with the latest counts and the right identity; an error event stands there if and only if the stream broke |
| StreamRelay.CountsAreTheLatest | internal/proxy/handler.go:1450-1475 | The counts are those of the last line that reports any, dropped lines included |
| StreamRelay.NoCountsNoTokens | internal/proxy/handler.go:1465-1475 | Without such a line there are none |
| StreamRelay.StreamIsTheFirst | internal/proxy/handler.go:1453-1464 | Synthesized events carry the first identity upstream gave, under the requested model name |
| StreamRelay.UsageReachesTheClient | internal/proxy/handler.go:1422-1436 | A client that wants usage gets it whenever upstream ends properly and reported tokens |
| ExposureRules.IsExposed | internal/catalog/rules.go:75-125 | For every sort result the two passes answer: no enabled rule denies and some enabled rule allows |
| ExposureRules.EvaluateDeny | internal/catalog/rules.go:89-104 | Pattern and tag loops decide whether one rule denies |
| ExposureRules.SingleRuleMeaning | internal/catalog/rules.go:106-149 | What one rule exposes on its own, type by type, with all its required capabilities |
| ExposureRules.DenyWins | internal/catalog/rules.go:86-104 | One matching deny pattern or tag outweighs all other rules |
| ExposureRules.UnmatchedRuleHidesNothing | internal/catalog/rules.go:86-104 | A rule with no matching deny pattern or tag hides nothing |
| ExposureRules.DisabledRulesAreIgnored | internal/catalog/rules.go:86-124 | Disabled rules do not count, and without rules nothing is exposed |
| ExposureRules.MoreCapabilitiesNeverHide | internal/catalog/rules.go:129-149 | A capability more never hides an entry |
| ExposureRules.OrderIsIrrelevant | internal/catalog/rules.go:69-84 | Permuting rules never changes the answer |
| ExposureRules.PrioritiesAreIrrelevant | internal/catalog/rules.go:80-84 | Neither does changing priorities |
| ExposureRules.AddingARule | internal/catalog/rules.go:86-124 | A new deny rule exposes nothing, and a rule that denies nothing hides nothing |

## Left out

- BillingSafety.RunKeepsSound: for runs whose committing settlements name the authorization's own account and type, which SettleKeepsHoldsIffMatched shows to be necessary.
- BillingTheorems.EveryRunReconciles: same condition; within one billing cycle and with top-ups before the first request only, since the repository has no code for later top-ups, cycle resets or limit changes.
- BillingCharges.ChargesOfAUsage: for runs whose committing settlements also name the authorization's usage.
- BillingUsage.UsagesFollowAuthorizations: for usages that the pending sweep (internal/billing/sweep/pending.go:288-298) and settlements with a failed transition did not write to, in runs in which calls name the authorization's usage. The sweep marks usages without evidence disputed while their authorization is still active.
- BillingLocking.LockingLinearises: an unplanned debit is split at its lock for a returned authorization; the one that follows a failed transition statement, and the transactions that only make relative updates, take place whole, waiting for the row lock.
- BillingLocking.UnlockedReadsOverdraw: does not model that the wallet table's check refuses the second write; it shows when that check is the only protection.
- RecoveryBound.BoundedRecovery: rows are not removed from the table.
- RecoveryTheorems.OneLiveReplacement: for runs without a lost read or write, which LostLinkLeavesTwoLive shows to be needed.
- RecoveryTheorems.ChainsWithinCounter: for runs without a failed lookup, which FailedLookupKeepsChainsIff shows to be needed.
- RecoveryTheorems.FailureStartsCooldown: for visits whose read and pointer write are not lost; a failed read clears the pointer without a wait, a lost write leaves the row as it was.
- RecoveryTheorems.NothingSpawnsDuringCooldown: for runs without a top-up that picks the waiting row; SpawnsDuringCooldownIff shows that this is exact.
- ReplicaCapacity.CountedRowsWithinCapacity: for runs whose stops leave room, which StopIsHarmlessIff shows to be necessary.
- ReplicaCapacity.LiveRowsWithinCapacity: for claimers that take the lock; UnguardedInsertsOvershootIff shows the need.
- ReplicaCapacity.CountedNumbersDistinct: for runs whose stops find the index unused, which StopKeepsNumbersIff shows to be necessary.
- GpuPacker.PackingIsSound: for distinct model names and device numbers; a repeated name overwrites the earlier assignment. A negative device count, on which the original panics, is not modelled.
- StreamRelay.OneEndMarkerLast: speaks of events; a non-data line that a lenient client reads as an end marker is passed through.
- Rounding to eight decimal places when finer costs are stored.
- The time test that selects authorizations for expiry, and the sweeps' batching.
- Hard deletion of runtime rows, concurrent reconciler processes, and the guards under which the reconciler plans a top-up.
- The delay and connection count that decide when a draining row is stopped: a stop may happen at any time.
- Node selection, preemption, port allocation, commands to node agents and their reports' contents.
- Splitting of the deny-tag string; white space beyond Latin-1 when event lines are trimmed.
- Admission control, in-flight limits and end-to-end output-token limits.
- HTTP handlers other than the relay loop, authentication, hashing, secrets, configuration, metrics, logs and audit columns.
