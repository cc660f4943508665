# Verification of the v3 core

A Dafny model of the hard part of the Go v3 services, with proofs of the properties its
design relies on. One database transaction is one atomic step; finer steps appear where a
remote call, a crash, a lease or a row lock makes the interleaving matter. State machines are
functions from a state and an event to a state, and their laws are proved for every run. Where
the service works row by row, a class performs the same statements and its methods are proved
to be the steps of the machine. The modules named `...Effects` state what each operation accepts
and writes, in terms of the request and the tables before and after it.

| area | modules |
|---|---|
| shared | `Options`, `Sets`, `Text`, `Arithmetic` |
| ledger keys, refund arithmetic | `Keys`, `Refunds`, `RefundLimits` |
| double-entry ledger, orders, callbacks, refunds, purchases, adjustments | `Ledger`, `Commerce`, `CommerceLaws`, `CommerceRuns`, `CommerceReplay`, `CommerceAnswers`, `CommerceEffects`, `CommerceService` |
| media-folder policy | `FolderSets`, `Folders` |
| task claiming, leases and fencing | `TaskQueue`, `TaskEffects` |
| provisioning of a remote user | `Provision`, `ProvisionLaws`, `ProvisionAttempt`, `ProvisionTask` |
| risk action, compensation and review | `RiskAction`, `RiskPromises`, `RiskEffects`, `RiskStore` |
| batch operations | `Batch`, `BatchRounds`, `BatchEffects`, `BatchStore` |
| memberships, invitations, entitlements | `AccessTime`, `Memberships`, `Invitations`, `MembershipEffects`, `MembershipStore`, `MembershipSales`, `Entitlements`, `EntitlementEffects`, `EntitlementSyncs` |
| roles and lifecycle, last owner | `Owners`, `OwnerLaws`, `OwnerEffects`, `OwnerStore` |
| playback snapshots and rules | `Playback`, `PlaybackEffects`, `PlaybackStore`, `RiskRules`, `RiskRuleLaws`, `RiskRuleEffects` |
| v2 import and reconciliation | `LegacyImport`, `LegacyEffects`, `ImportStore` |
| automation events | `Automation`, `AutomationLimits`, `AutomationRuns`, `AutomationEffects`, `AutomationStore` |

Verify with `dafny verify dfyconfig.toml`.

## Where the code does less than one might expect

Each of these is proved with the exact condition under which the code does or does not meet the
promise, and, where several events must come together, with a run in which they do:

- a folder sync that writes the remote policy and then fails to record it is repaired by the
  next sync exactly under `Folders.RepairedExactlyWhen`; on the first sync of an account the
  added folder becomes permanent (`Folders.LostFirstWriteIsPermanent`);
- a task taken over after a lost lease is claimed beyond its limit
  (`TaskQueue.LimitExceededExactlyWhen`, `TaskQueue.TakeoverExceedsLimit`);
- a provisioning retry adopts a user somebody else created after the preflight
  (`ProvisionAttempt.AdoptsExactlyWhen`, `ProvisionAttempt.ForeignUserIsAdopted`), a request can
  succeed on a user bound to another account (`ProvisionAttempt.SucceedsForAnotherExactlyWhen`,
  `ProvisionAttempt.AnothersBindingIsTaken`), and a stale failure overwrites `succeeded` for good
  (`ProvisionLaws.SuccessLostExactlyWhen`, `ProvisionTask.LostSuccessIsNeverRepaired`);
- a false-positive review abandons a user who was disabled by a call that reported failure
  (`RiskPromises.ReviewAbandonsExactlyWhen`, `RiskPromises.HalfAppliedIsAbandoned`), and a retried
  action can misreport a restored user (`RiskPromises.MisreportsExactlyWhen`,
  `RiskPromises.RetriedActionMisreports`);
- a batch commit that goes through but reports an error lets even a single executor apply the
  effect again (`BatchRounds.ExactlyOnce`, `BatchRounds.LostReplyAppliesTwice`);
- overlapping executors can apply a batch item or an automation rule twice
  (`Batch.AppliedTwiceExactlyWhen`, `BatchRounds.OverlapAppliesTwice`,
  `Automation.CommitsTwiceExactlyWhen`, `AutomationRuns.OverlapRunsTwice`);
- a late failure report turns the attempt counter of an automation event back, so that up to two
  to the limit, less one, attempts are made (`AutomationLimits.LimitExceededExactlyWhen`,
  `AutomationLimits.OverlapBoundIsReached`), and a crash on the last attempt strands the event
  (`AutomationRuns.CrashStrandsExactlyWhen`);
- entitlement codes without an instance do not add up for an account without a binding
  (`Entitlements.GrantsAddUpExactlyWhen`): the unique constraint of
  v3/internal/migrate/sql/000008_legacy_domain_completion.up.sql:55 does not apply to a NULL instance;
- revoking an entitlement a second time queues no folder sync
  (`EntitlementSyncs.RevocationSyncsExactlyWhen`, `EntitlementSyncs.SecondRevocationIsNotSynced`); the
  folder stays until the next sync of that binding;
- session ids with a colon can end the history row of a session that goes on
  (`Playback.OpenExactlyWhen`, `Playback.ColonIdsBreakAgreement`);
- the enabled flag of a risk rule is never read (`RiskRuleLaws.RaisedExactlyWhen`,
  `RiskRuleLaws.DisabledRiskRulesStillFire`), and its cooldown is a fixed grid of buckets, not a
  pause (`RiskRuleLaws.FiresAgainExactlyWhen`);
- a v2 balance that returns to an earlier value is not imported (`LegacyImport.BalanceReachedExactlyWhen`,
  `LegacyImport.ReturningBalanceIsMissed`), and importer and reconciler disagree on blank balance
  types (`LegacyImport.CurrenciesAgreeExactlyWhen`).

## Model

| member | source | states |
|---|---|---|
| `Refunds.TotalsStayProportional` | v3/internal/platform/commerce.go:391-402 | after any accepted refunds the wallet total and the money total keep the order's exact ratio and neither exceeds its cap |
| `Refunds.FullTogether` | v3/internal/platform/commerce.go:428-431 | the wallet side is used up exactly when the money side is, so `refunded` is written exactly when everything is back |
| `Refunds.RemainderAccepted` | v3/internal/platform/commerce.go:391-402 | what is left of a partly refunded order is itself an acceptable refund and completes it |
| `RefundLimits.ProportionalPairs` | v3/internal/platform/commerce.go:398-402 | the cross-multiplication test passes exactly for whole multiples of the smallest proportionate pair |
| `RefundLimits.AtMostGcdRefunds` | v3/internal/platform/commerce.go:391-402 | an order admits at most gcd(grant, price) refunds |
| `RefundLimits.GcdRefundsPossible` | v3/internal/platform/commerce.go:391-402 | that many refunds are possible: the bound is attained |
| `RefundLimits.GcdIsGreatest` | v3/internal/platform/commerce.go:398-402 | Gcd is the greatest common divisor, every common divisor being at most it |
| `Keys.RenderInjective` | v3/internal/platform/wallet.go:217 | the payment, refund, adjustment and purchase keys are jointly injective on validated input |
| `Keys.RenderFits` | v3/internal/platform/wallet.go:102-104 | a validated key survives the ledger's trimming and its limit of 255 bytes |
| `Ledger.TotalSides` | v3/internal/platform/wallet.go:115-125 | the accumulation loop stops at a bad amount and otherwise totals both sides |
| `Ledger.PostLedgerTx` | v3/internal/platform/wallet.go:101-142 | posting is exactly the specified decision: reject, replay the row holding the key, or append one posted row |
| `Ledger.FindKeyMeansSameKey` | v3/internal/platform/wallet.go:107-111 | looking a key up by its text finds a row exactly when some row carries that very key |
| `Ledger.PostedIsBalanced` | v3/internal/platform/wallet.go:126-141 | whatever is posted is balanced, positive, in one currency, and under a key no other row has |
| `Ledger.TrialBalance` | v3/internal/platform/wallet.go:82-86 | the accounts of a currency in a ledger of balanced transactions sum to zero |
| `CommerceService.Service.EnsureWallet` | v3/internal/platform/wallet.go:56-80 | creating or refreshing a wallet makes its status follow the account unless it is closed |
| `CommerceService.Service.CreateRechargeOrder` | v3/internal/platform/commerce.go:171-220 | the order creation as an atomic step, with its replay and its refusals |
| `CommerceService.Service.ConfirmRecharge` | v3/internal/platform/commerce.go:274-358 | row-by-row writes with rollback amount to the atomic callback step |
| `CommerceService.Service.Pay` | v3/internal/platform/commerce.go:322-357 | wallet, ledger, callback row and order row commit together or not at all |
| `CommerceService.Service.RefundRecharge` | v3/internal/platform/commerce.go:360-443 | row-by-row writes with rollback amount to the atomic refund step, whose effect CommerceEffects.RefundDoes states |
| `CommerceService.Service.UsedAmounts` | v3/internal/platform/commerce.go:391-394 | the running sums are the totals over all refund rows of the order |
| `CommerceService.Service.PurchaseMembership` | v3/internal/platform/commerce.go:476-538 | row-by-row writes with rollback amount to the atomic purchase step, whose effect CommerceEffects.PurchaseDoes states |
| `CommerceService.Service.AdjustWallet` | v3/internal/platform/wallet.go:207-264 | row-by-row writes with rollback amount to the atomic adjustment step, whose effect CommerceEffects.AdjustmentDoes states |
| `CommerceLaws.KeyUnused` | v3/internal/platform/wallet.go:107-111 | no payment, refund or purchase key is in the ledger before its own business row exists, so the ledger's replay path is never taken for a new operation |
| `CommerceLaws.MinimumIsNeverPosted` | v3/internal/platform/wallet.go:207-251 | adjusting by the smallest 64-bit integer, which negates to itself, is refused and changes nothing |
| `CommerceRuns.StepKeeps` | v3/internal/platform/commerce.go:171-538 | every operation, committed or rolled back, keeps the whole invariant of orders, callbacks, refunds, purchases and ledger |
| `CommerceRuns.BooksAlwaysBalance` | v3/internal/platform/wallet.go:82-144 | after any run every posted transaction is balanced and the accounts of each currency sum to zero |
| `CommerceRuns.WalletEquation` | v3/internal/platform/wallet.go:82-86 | after any run each wallet holds paid grants less refunds less purchases plus signed adjustments, and is never negative |
| `CommerceRuns.CreditedExactlyOnce` | v3/internal/platform/commerce.go:288-357 | a paid order has been credited once and for its grant; an unpaid order never |
| `CommerceRuns.CallbacksAgree` | v3/internal/platform/commerce.go:294-345 | all callbacks stored for one order agree on external id, amount and ledger transaction, whatever was duplicated, reordered or mismatched |
| `CommerceRuns.RefundLaws` | v3/internal/platform/commerce.go:391-432 | the refund arithmetic holds for every order in every reachable state, and the ledger moved exactly the refunded total |
| `CommerceRuns.RunExtends` | v3/internal/platform/commerce.go:171-538 | nothing committed is taken back: ledger, purchases, refunds, callbacks and payment data only grow |
| `CommerceReplay.KeyIsSpent` | v3/internal/platform/commerce.go:182-187 | once a request committed, no request under its key changes anything or returns another row, at any later time |
| `CommerceReplay.RepeatedRequestReplays` | v3/internal/platform/commerce.go:288-302 | the same request or callback sent again, however late and whatever happened since, returns the row it returned first |
| `CommerceAnswers.PaidOrderNamesItsTransaction` | v3/internal/platform/commerce.go:346-349 | a paid order names the ledger transaction that credited it, and no two orders name the same one |
| `CommerceAnswers.PaymentAcceptedExactlyWhen` | v3/internal/platform/commerce.go:322-349 | a pending order's payment is accepted exactly when no other order of the provider was paid under that external id |
| `CommerceAnswers.CallbackAcceptedExactlyWhen` | v3/internal/platform/commerce.go:305-345 | a callback under a new event id is accepted exactly when its order waits for payment, is unexpired, costs that amount and the external id is free, or was paid with that very id and amount |
| `CommerceAnswers.NewOrderStaysPayable` | v3/internal/platform/commerce.go:202-209 | after any run without a callback for it, a callback under a new event id pays a new order exactly when it comes within the configured minutes (30 if the setting is out of range), is over the product's price, and its external id is free |
| `CommerceAnswers.RefundAcceptedExactlyWhen` | v3/internal/platform/commerce.go:388-418 | a refund under a new key is accepted exactly when status, proportion, caps and wallet balance allow it |
| `CommerceAnswers.PurchaseAcceptedExactlyWhen` | v3/internal/platform/commerce.go:496-527 | a purchase under a new key goes through exactly when the wallet is usable, holds the price and the plan can be assigned |
| `CommerceAnswers.AdjustmentAcceptedExactlyWhen` | v3/internal/platform/wallet.go:226-251 | a new adjustment goes through exactly when the currency is well formed, the wallet covers it and the amount has a negation |
| `CommerceEffects.EnsuredMeans` | v3/internal/platform/wallet.go:56-80 | an ensured wallet stays closed if it was, and is otherwise usable exactly while its account is active; no other wallet changes |
| `CommerceEffects.OrderDoes` | v3/internal/platform/commerce.go:171-220 | an order under a new key is accepted exactly when key, provider, product and account allow it; it then adds one row with the product's price, grant and currency, open for the configured minutes, and nothing else changes |
| `CommerceEffects.CallbackDoes` | v3/internal/platform/commerce.go:305-357 | the first accepted callback credits exactly the grant to the order's own wallet and records amount and external id, a later one adds only its own row, and a refused one changes nothing |
| `CommerceEffects.RepeatedCallbackDoes` | v3/internal/platform/commerce.go:288-302 | a callback under a known event id is answered with its order exactly if it names the stored order, external id and amount, is a conflict otherwise, and never changes anything |
| `CommerceEffects.RefundDoes` | v3/internal/platform/commerce.go:360-440 | a refund under a new key is accepted exactly when it is well formed, the order is paid and not fully refunded, wallet and money amounts as requested fit proportion and caps, and the wallet holds the wallet amount; then the last refund row has exactly these amounts and this key, that wallet falls by exactly the wallet amount, and no other order or balance changes |
| `CommerceEffects.UnknownOrderIsRefused` | v3/internal/platform/commerce.go:378-387 | a refund of an order that does not exist changes nothing |
| `CommerceEffects.PurchaseDoes` | v3/internal/platform/commerce.go:476-538 | a purchase under a new key is accepted exactly when the product is on offer, the account active with a wallet that is not closed and holds the price, and the plan can be assigned; then exactly the product's price leaves that wallet, the row says so, and no other balance changes |
| `CommerceEffects.AdjustmentDoes` | v3/internal/platform/wallet.go:207-262 | an adjustment under a new key is accepted exactly when it is well formed, the account is active, the wallet is not closed and the new balance is not negative; then that wallet changes by exactly the signed amount, and no other wallet does |
| `FolderSets.MergeFolderSets` | v3/internal/platform/worker.go:334-350 | the result is the sorted duplicate-free list of all trimmed non-blank names of all groups |
| `FolderSets.SubtractFolderSet` | v3/internal/platform/worker.go:320-332 | keeps, in order, exactly the values that were not removed |
| `FolderSets.ListIsUnique` | v3/internal/platform/worker.go:345-349 | a set of names has only one sorted duplicate-free list |
| `Folders.Account.ReadFolders` | v3/internal/platform/worker.go:297-318 | a stored or remote list is read as the sorted list of its trimmed non-blank names |
| `Folders.Account.SyncEntitlement` | v3/internal/platform/worker.go:254-294 | a sync whose write and record go through is the completed step; one that stops in between leaves the unrecorded write |
| `Folders.SyncIsIdempotent` | v3/internal/platform/worker.go:259-285 | running the same sync again changes neither the remote list nor the row |
| `Folders.SyncsClosedForm` | v3/internal/platform/worker.go:259-285 | after any syncs the list is baseline, last entitlements, and what was there before and never managed by an earlier sync |
| `Folders.UneditedIsBaselineAndManaged` | v3/internal/platform/worker.go:259-285 | when nobody else edits the policy the list is exactly the sorted list of baseline and current entitlements |
| `Folders.BaselineIsPermanent` | v3/internal/platform/worker.go:285-287 | the baseline recorded by the first sync is never rewritten |
| `Folders.SyncAmongEdits` | v3/internal/platform/worker.go:259-272 | with administrator edits in any order: baseline and managed folders present, revoked ones gone, unmanaged additions kept, nothing else added |
| `Folders.AdminFolderSurvives` | v3/internal/platform/worker.go:271-272 | an administrator's folder survives every later sync, recorded or not, until it is edited away or managed |
| `Folders.RepairedExactlyWhen` | v3/internal/platform/worker.go:274-287 | the next completed sync repairs any unrecorded writes exactly when every folder they added is still wanted |
| `Folders.RetryRepairs` | v3/internal/platform/worker.go:274-287 | retrying with the same entitlements always repairs |
| `Folders.FirstWriteRepairedExactlyWhen` | v3/internal/platform/worker.go:261-272 | on a never-synced account an unrecorded write is repaired exactly when it added nothing |
| `Folders.LostFirstWriteIsPermanent` | v3/internal/platform/worker.go:261-287 | a folder added by an unrecorded first write is never revoked by any later sync |
| `TaskQueue.Task.Claim` | v3/internal/platform/worker.go:112-147 | claiming takes a due or expired task and hands out the attempt number, and otherwise changes nothing |
| `TaskQueue.Task.KeepLease` | v3/internal/platform/worker.go:149-168 | renewal extends the lease exactly while the worker owns the running task |
| `TaskQueue.Task.Finish` | v3/internal/platform/worker.go:1003-1006 | the result is written only by the owner |
| `TaskQueue.Task.Fail` | v3/internal/platform/worker.go:1008-1027 | the failure verdict, the back-off and the release are written only by the owner |
| `TaskQueue.Task.RetryTask` | v3/internal/platform/tasks.go:95-108 | a failed or dead task is reset; any other is refused |
| `TaskQueue.Task.Cancel` | v3/internal/platform/risk.go:388-391 | a review fails a task that is neither running nor succeeded |
| `TaskQueue.Reachable` | v3/internal/platform/worker.go:112-147 | owner set exactly while running, result set exactly when succeeded, attempts within the limit plus the leases lost |
| `TaskQueue.WritesAreFenced` | v3/internal/platform/worker.go:1003-1027 | a worker's statements change the row exactly when its claim is the latest one |
| `TaskQueue.LostLeaseIsFinal` | v3/internal/platform/worker.go:1003-1027 | once another claim went through, a stalled worker never touches the row again |
| `TaskQueue.OneLiveJob` | v3/internal/platform/worker.go:112-147 | two workers never both hold a job that can still write |
| `TaskQueue.SuccessIsFinal` | v3/internal/platform/worker.go:1003-1006 | a succeeded task never changes again, so its result is written once |
| `TaskQueue.LeaseProtects` | v3/internal/platform/worker.go:149-168 | until its lease runs out nobody can take a task from its owner |
| `TaskQueue.FinishWithinLease` | v3/internal/platform/worker.go:149-168 | a worker that finishes or renews within its lease has its own result recorded, whatever others do |
| `TaskQueue.DelayIsCapped` | v3/internal/platform/worker.go:1020 | the back-off doubles up to the eighth attempt, is 300 seconds after it, and never shrinks |
| `TaskQueue.ClaimedExactlyMaximumTimes` | v3/internal/platform/worker.go:1014-1027 | an always retryably failing task that loses no lease is dead exactly after `maximum` claims, not before its whole back-off |
| `TaskQueue.DiesAtTheLimit` | v3/internal/platform/worker.go:1014-1027 | such a task is never stuck: it can be attempted until it dies at the limit |
| `TaskQueue.LimitExceededExactlyWhen` | v3/internal/platform/worker.go:121-125 | over any run, more attempts than the limit have been made exactly when an expired lease was taken over with the attempts used up since the task was last started afresh |
| `TaskQueue.TakeoverExceedsLimit` | v3/internal/platform/worker.go:121-125 | the concrete case: a task with one attempt is claimed twice |
| `TaskEffects.FailureDoes` | v3/internal/platform/worker.go:1008-1027 | a failure reported by the owner fails the task for good if it is permanent, kills it if the attempts are used up, and otherwise lets it wait two to the power of its attempts in seconds, at most 300 |
| `TaskEffects.BackOffEndsExactlyWhen` | v3/internal/platform/worker.go:121-125 | with attempts left, the task can be claimed again exactly when that time has passed |
| `TaskEffects.LeaseEndsExactlyWhen` | v3/internal/platform/worker.go:121-133 | somebody else can claim a claimed task exactly when its whole lease has run out |
| `TaskEffects.GivenUpUntilRetried` | v3/internal/platform/worker.go:121-125 | until an administrator retries it, nobody can claim a failed or dead task, whatever happens |
| `TaskEffects.RetryDoes` | v3/internal/platform/tasks.go:95-108 | a retry makes a failed or dead task claimable at once with its attempts counted from zero, and leaves any other task alone |
| `TaskEffects.RetriedDiesAtTheLimit` | v3/internal/platform/tasks.go:101 | a retried task whose every attempt fails is attempted as often as a new one |
| `TaskEffects.CancelDoes` | v3/internal/platform/risk.go:388-391 | a canceled task fails without being run unless it is running or has succeeded |
| `ProvisionLaws.AtMostOneUser` | v3/internal/platform/worker.go:430-513 | for all interleavings, crashes, lost or late create calls and outside users and bindings: never a second user of the name, none created before the preflight is durable, every recorded or bound id is that user's, a user the request bound has its password, and a succeeded request's user has a binding |
| `ProvisionLaws.BindingIsFinal` | v3/internal/platform/worker.go:488-509 | once the request has bound a user, the binding stays, the user keeps the name, and nothing more is created |
| `ProvisionLaws.HeldByOther` | v3/internal/platform/worker.go:454-458 | over any run, the name's user was not created here exactly when somebody else took the name |
| `ProvisionLaws.ExistingUserIsNeverAdopted` | v3/internal/platform/worker.go:468-470 | a user who had the name at the start is never adopted and nothing is created |
| `ProvisionLaws.RecordedIdStays` | v3/internal/platform/worker.go:478-487 | over any run, the id of a user the service created is durable from the statement that records it on |
| `ProvisionLaws.ChosenUser` | v3/internal/platform/worker.go:454-467 | the user an attempt goes on with is the recorded id if the server lists it, and otherwise the first user of the name |
| `ProvisionAttempt.UndisturbedAttemptBinds` | v3/internal/platform/worker.go:430-513 | from every reachable state one undisturbed attempt succeeds exactly when the name is free or the preflight is durable, and the user has a binding or can be given the account's only one; it creates a user exactly when the name is free, and on success knows, has given the password to and has bound the one user of the name |
| `ProvisionAttempt.AdoptsExactlyWhen` | v3/internal/platform/worker.go:454-470 | over any run, an undisturbed attempt succeeds on a user the service did not create exactly when somebody else took the name, the preflight is durable and that user can be bound |
| `ProvisionAttempt.SucceedsForAnotherExactlyWhen` | v3/internal/platform/worker.go:494-498 | over any run, an undisturbed attempt succeeds without a binding of its own account exactly when the user it works on is bound to another account |
| `ProvisionAttempt.ForeignUserIsAdopted` | v3/internal/platform/worker.go:454-487 | the run: preflight, crash, somebody else takes the name, retry; that user is adopted, given the password and bound |
| `ProvisionAttempt.AnothersBindingIsTaken` | v3/internal/platform/worker.go:494-498 | the run: create, crash before the closing transaction, somebody else is given the user, retry; the request succeeds and its account has nothing |
| `ProvisionLaws.SuccessLostExactlyWhen` | v3/internal/platform/worker.go:1028-1030 | over any run, the request shows `succeeded` exactly when a closing transaction went through and no attempt, stale or not, has reported a failure since |
| `ProvisionTask.RequestIsRun` | v3/internal/platform/worker.go:91-147 | with the task row alongside, whatever claims, leases, crashes and retries do to the request is a run of the protocol, so all its laws hold |
| `ProvisionTask.NothingRepairs` | v3/internal/platform/worker.go:112-147 | once the task is done and nobody works on the request, the request's status never changes again: no claim, and the retry is refused |
| `ProvisionTask.LostSuccessIsNeverRepaired` | v3/internal/platform/worker.go:1008-1029 | the run: a worker stalls past its lease, another completes the attempt and the task, the first reports its failure; the user is bound, the request does not show it, and no later action changes that |
| `ProvisionAttempt.Request.FindUser` | v3/internal/platform/worker.go:454-467 | the two scans pick the recorded id if it is listed and otherwise the first user of the name |
| `ProvisionAttempt.Request.MarkPreflight` | v3/internal/platform/worker.go:471-477 | the flag is set once; a second reservation affects no row |
| `ProvisionAttempt.Request.BindUser` | v3/internal/platform/worker.go:494-509 | the closing transaction takes the user's binding, whoever has it, or inserts one for an active account without any, and closes the request |
| `ProvisionAttempt.Request.ProvisionUser` | v3/internal/platform/worker.go:430-513 | every attempt, whatever goes wrong, is a run of the protocol, and one in which nothing goes wrong ends bound exactly if the user may be used and bound |
| `RiskPromises.BeforeStateIsDurable` | v3/internal/platform/worker.go:735-751 | the previous flag is durable before anything is sent to the server and is never overwritten |
| `RiskPromises.RevertRestores` | v3/internal/platform/worker.go:755-813 | a completed revert has restored exactly the previous flag, for good, and the binding shows it |
| `RiskPromises.ReviewQueuesOneRevert` | v3/internal/platform/risk.go:379-405 | the first review of a recorded disable queues exactly one revert or is refused exactly while an attempt is in progress |
| `RiskPromises.ReviewAbandonsExactlyWhen` | v3/internal/platform/risk.go:384-392 | a review gives up on a changed user exactly when the action failed after the call took effect but before that was recorded |
| `RiskPromises.HalfAppliedIsAbandoned` | v3/internal/platform/risk.go:384-392 | that state is reachable: the call takes effect and reports an error |
| `RiskPromises.CompletionReports` | v3/internal/platform/worker.go:789-803 | while no revert is queued a completed action reports what the server has |
| `RiskPromises.MisreportsExactlyWhen` | v3/internal/platform/worker.go:789-803 | over any run, a completing attempt reports something the server does not have exactly when it is an attempt of the action and a revert's call took effect before |
| `RiskPromises.RetriedActionMisreports` | v3/internal/platform/worker.go:1031-1043 | the concrete run: a retried action ends `succeeded`, shown as disabled, on a restored user |
| `RiskPromises.StoppedMeansStopped` | v3/internal/platform/worker.go:735-745 | a completed session action has stopped the session, touches no user and is never reverted |
| `RiskPromises.TwoAttemptsRestore` | v3/internal/platform/worker.go:691-813 | from every reachable state with a queued revert, two undisturbed attempts restore the user |
| `RiskEffects.AttemptDisables` | v3/internal/platform/worker.go:678-818 | from every reachable state in which the action can run, an attempt in which nothing fails disables the user, shows it, and keeps the flag from before the first attempt; a user disabled already is sent nothing |
| `RiskEffects.AttemptStops` | v3/internal/platform/worker.go:735-745 | an attempt of a session action in which nothing fails stops the session and touches no user |
| `RiskEffects.ReviewDoes` | v3/internal/platform/risk.go:379-405 | over any run, the first review is refused exactly while an attempt is in progress, and otherwise queues a revert exactly if the effect is recorded and cancels the action if not; later reviews change nothing |
| `RiskStore.Action.MarkFalsePositive` | v3/internal/platform/risk.go:356-419 | the review as a step, with its conflict answer |
| `RiskStore.Action.Execute` | v3/internal/platform/worker.go:678-818 | every attempt is a run of the protocol and says how it ended; one in which nothing fails completes |
| `Batch.Reachable` | v3/internal/platform/batch.go:364-545 | with any workers: owner recorded exactly while running, nothing left in progress, item statuses partition the total, an effect at most once more than the retries |
| `Batch.TerminalIsFinal` | v3/internal/platform/batch.go:309-362 | `canceled` and `succeeded` are final, counters included |
| `Batch.CancelBounds` | v3/internal/platform/batch.go:421-435 | after a cancel each worker commits at most the one item it had already checked |
| `Batch.ClaimIsExclusive` | v3/internal/platform/batch.go:369-386 | a worker that claims owns the operation for the length of its lease unless an administrator intervenes |
| `BatchRounds.ExactlyOnce` | v3/internal/platform/batch.go:364-545 | with executors one after the other, whatever is paused, resumed, canceled, retried or crashes, an effect is applied once if the item is done and never otherwise exactly when no commit of it that reported an error was marked failed, and once more for each; a finished operation accounts for every item |
| `Batch.EffectsAreCounted` | v3/internal/platform/batch.go:428-433 | over any run of any workers, an item's effect was applied once if it is done, and once more for every success a late failure overwrote |
| `Batch.AppliedTwiceExactlyWhen` | v3/internal/platform/batch.go:428-433 | over any run, an effect is applied more than once exactly when a success was overwritten by a failure and the item was processed again |
| `BatchRounds.OverlapAppliesTwice` | v3/internal/platform/batch.go:428-433 | the concrete case: with two executors one retry applies an effect twice, as the error path writes the item by id alone |
| `BatchRounds.LostReplyAppliesTwice` | v3/internal/platform/batch.go:428-433 | the concrete case with a single executor: a commit goes through and reports an error, the item is marked failed and retried, and its effect is applied twice |
| `BatchRounds.StopTakesEffect` | v3/internal/platform/batch.go:421-427 | a pause or cancel takes effect before the next item: exactly the items already through have their outcome, and the closing update no longer changes the status |
| `BatchRounds.RoundsFinish` | v3/internal/platform/batch.go:364-545 | exactly the computed number of undisturbed rounds finishes the operation, succeeded exactly if nothing failed |
| `BatchRounds.RoundsNeededIsCeiling` | v3/internal/platform/batch.go:392-399 | that number is pending divided by chunk, rounded up, and one for an empty operation |
| `BatchEffects.ChunkIsFirstWaiting` | v3/internal/platform/batch.go:397-414 | the chunk holds as many waiting items as fit, in order, and passes none over |
| `BatchEffects.AdministratorsDo` | v3/internal/platform/batch.go:309-362 | from which status each administrator's request is allowed and where it leads; the owner loses the operation, a retry reopens exactly the failed items, effects and counters stay |
| `BatchEffects.FinalizeDoes` | v3/internal/platform/batch.go:511-545 | only the owner writes the final count, which leaves the operation waiting if an item waits and succeeded exactly if every item is done, with counters for every item |
| `BatchEffects.LeaseEndsExactlyWhen` | v3/internal/platform/batch.go:369-386 | after a claim, or a renewal by the owner, somebody else can claim the operation exactly when the whole lease has run out |
| `BatchStore.Operation.BatchTransition` | v3/internal/platform/batch.go:342-362 | pause, resume and cancel release the owner when allowed and are refused otherwise |
| `BatchStore.Operation.RetryBatch` | v3/internal/platform/batch.go:318-341 | a failed operation and its failed items wait again |
| `BatchStore.Operation.SelectChunk` | v3/internal/platform/batch.go:397-414 | the chunk is the first waiting items in order |
| `BatchStore.Operation.FinalizeChunk` | v3/internal/platform/batch.go:511-545 | the final status and the counters follow from the item statuses and are written only by the owner |
| `BatchStore.Operation.ProcessNextBatch` | v3/internal/platform/batch.go:364-435 | claim, chunk loop and finalize amount to one round, also when processing fails, when a commit loses its reply, and when a pause or cancel lands before any item or before the end |
| `AccessTime.ExpiryIsMaximum` | v3/internal/platform/membership.go:166-182 | the expiry is the largest of the old expiry plus all grants and each grant's time plus the grants from it on |
| `AccessTime.MaximumIsUnique` | v3/internal/platform/membership.go:166-182 | a value that bounds and attains those candidates is the expiry |
| `AccessTime.IntervalsAreDisjoint` | v3/internal/platform/membership.go:166-182 | the interval each grant buys starts after the previous one ends and not before its grant |
| `AccessTime.AllTimeIsUsed` | v3/internal/platform/membership.go:166-182 | when access ends exactly the granted total has been used |
| `Memberships.ExpiryAfterRun` | v3/internal/platform/membership.go:154-191 | after any mixture of assignments and redemptions an account has at most one current membership, whose expiry is that maximum |
| `MembershipStore.Store.AssignMembershipTx` | v3/internal/platform/membership.go:154-191 | the assignment as written: find the current expiry, expire the live rows, insert |
| `MembershipStore.Store.RedeemInvitation` | v3/internal/platform/membership.go:311-356 | the redemption as an atomic step, with its replay and its refusals |
| `MembershipStore.Store.RevokeInvitation` | v3/internal/platform/membership.go:276-293 | only an active code can be revoked |
| `MembershipStore.Store.GenerateInvitations` | v3/internal/platform/membership.go:193-241 | kind, count, plan, expiry and prefix are checked in that order; then one row per code, all or none |
| `MembershipEffects.AssignDoes` | v3/internal/platform/membership.go:154-191 | an assignment is accepted exactly when the plan is enabled; the account's current membership then ends in favour of one row with the days asked for, or the plan's, on top of what was left |
| `MembershipEffects.RedeemDoes` | v3/internal/platform/membership.go:311-356 | a redemption under a new key is accepted exactly when the code is open, not used up, not expired, its plan is enabled and the account has not redeemed it; it then grants the plan's days, records the redemption and counts one use |
| `MembershipEffects.UnknownCodeIsRefused` | v3/internal/platform/membership.go:311-324 | a code nobody issued, or a text out of range, is refused and changes nothing |
| `MembershipEffects.RevokeDoes` | v3/internal/platform/membership.go:276-293 | revoking works exactly on an open code and touches nothing else |
| `MembershipEffects.IssueDoes` | v3/internal/platform/membership.go:193-241 | an order of codes is all issued or not at all, exactly when kind, count, uses, plan, expiry, prefix and codes are in order; each code is then open and unused |
| `MembershipSales.OneMembershipEach` | v3/internal/platform/commerce.go:518-529 | after any mixture of payments, purchases, grants and redemptions each purchase names its own membership and each membership bought is named by its purchase, of the same account |
| `MembershipSales.MembershipsAreNotShared` | v3/internal/platform/commerce.go:527 | in particular no two purchases name the same membership |
| `MembershipSales.BoughtTogether` | v3/internal/platform/commerce.go:518-529 | a purchase that commits prolongs the account's membership by the product's time on top of what is left; one that does not changes nothing |
| `MembershipSales.BuyDoes` | v3/internal/platform/commerce.go:496-538 | a purchase under a new key commits exactly when product, plan, account, wallet and balance allow it; then exactly the price leaves the wallet and the membership runs the product's days longer; and otherwise neither side changes |
| `MembershipSales.MoneyIsRun` | v3/internal/platform/commerce.go:476-538 | the money side of every such run is a run of the commerce operations, so all their laws hold |
| `MembershipSales.MembersAreRun` | v3/internal/platform/membership.go:154-191 | and its membership side is a run of the membership operations |
| `Invitations.InvitationsAddUp` | v3/internal/platform/membership.go:336-351 | the use count is the number of redemptions and of memberships paid for, by different accounts, within the limit, and the code is used up exactly at the limit |
| `Invitations.RunExtends` | v3/internal/platform/membership.go:276-293 | redemptions are permanent and a revoked or used-up code never changes again |
| `Invitations.RedemptionReplays` | v3/internal/platform/membership.go:325-331 | redeeming again under the same key, even after revocation or expiry, answers with the same membership and changes nothing |
| `Entitlements.Store.BindingFor` | v3/internal/platform/access_lines.go:122-138 | the primary binding, or else the oldest one that serves the instance |
| `Entitlements.Store.Redeem` | v3/internal/platform/access_lines.go:106-159 | the redemption as written: find the code, pick the binding, insert or prolong, spend the code, queue the sync |
| `Entitlements.Store.GrantTo` | v3/internal/platform/access_lines.go:161-202 | a direct grant needs a binding and prolongs or creates the row |
| `Entitlements.Store.Revoke` | v3/internal/platform/access_lines.go:204-240 | a row that is not revoked becomes revoked, and its sync is queued unless that key was |
| `Entitlements.ExpiryOfEntitlement` | v3/internal/platform/access_lines.go:140 | in every reachable state an entitlement obeys the same recurrence, whatever was revoked or expired in between, with one row per account, instance and resource |
| `Entitlements.RevokedTimeReturns` | v3/internal/platform/access_lines.go:140 | revoking takes access away but not time: the next grant ends as if nothing had been revoked |
| `Entitlements.GrantsAddUpExactlyWhen` | v3/internal/platform/access_lines.go:140 | two grants add up exactly when the instance is known or the first has lapsed; without an instance they run side by side |
| `Entitlements.GrantManagesRevokeDoesNot` | v3/internal/platform/worker.go:240 | a grant makes its folder managed for as long as it lasts, and revoking that row ends it at once |
| `Entitlements.ManagedUntilExpiry` | v3/internal/platform/worker.go:240-244 | over any run, the folder of an active library entitlement is managed exactly until it expires |
| `EntitlementEffects.RedeemedOnce` | v3/internal/platform/access_lines.go:119-144 | once a code was redeemed, every later attempt by anybody, in any spelling and after any other operations, is a conflict and changes nothing |
| `EntitlementEffects.AtMostOneRedemption` | v3/internal/platform/access_lines.go:119-144 | in any run at most one redemption of a code is accepted |
| `EntitlementEffects.RedeemDoes` | v3/internal/platform/access_lines.go:106-159 | a redemption is accepted exactly when the code exists and is available; then the code is spent, one grant of its days of its resource goes to the account's row, every other row is left alone, and a sync is queued if there is a binding |
| `EntitlementEffects.GrantDoes` | v3/internal/platform/access_lines.go:161-202 | a direct grant is accepted exactly when kind, key and days are in range and a binding serves the instance; it adds one grant to the account's row and queues a sync |
| `EntitlementEffects.RevokeDoes` | v3/internal/platform/access_lines.go:204-240 | a revocation with a reason is accepted exactly on a row that is not revoked, changes only its status, and queues a sync if the row has a binding |
| `EntitlementEffects.SweepDoes` | v3/internal/platform/worker.go:286-290 | the sweep expires exactly the rows of its binding that have run out |
| `EntitlementEffects.PicksPreferred` | v3/internal/platform/access_lines.go:122-138 | the binding picked serves the instance and is preferred to every other that does: primary first, then the oldest; none is picked exactly if none serves it |
| `EntitlementSyncs.RevocationSyncsExactlyWhen` | v3/internal/platform/access_lines.go:219-240 | over any run, an accepted revocation queues a folder sync exactly when the row has a binding and was never revoked with one before |
| `EntitlementSyncs.GrantsAlwaysSync` | v3/internal/platform/access_lines.go:190-191 | over any run, every accepted grant queues a sync |
| `EntitlementSyncs.SecondRevocationIsNotSynced` | v3/internal/platform/access_lines.go:219-240 | the run: grant, revoke, grant, revoke; the second revocation makes the folder unmanaged and queues nothing |
| `OwnerLaws.LastOwnerStays` | v3/internal/identity/governance.go:149-200 | for all lock-level interleavings of role and lifecycle transactions, an active owner once present is present in every later state |
| `OwnerLaws.BootstrappedOnce` | v3/internal/identity/accounts.go:380-431 | the owner account is bootstrapped at most once |
| `OwnerLaws.NoDeadlock` | v3/internal/identity/governance.go:149-159 | while a transaction is open some transaction is not waiting for a lock |
| `OwnerLaws.AllCanEnd` | v3/internal/identity/governance.go:149-200 | from every reachable state some run of the open transactions' own statements ends all of them |
| `OwnerStore.Directory.AssignRoles` | v3/internal/identity/governance.go:139-208 | the assignment replaces the roles, or answers exactly why not |
| `OwnerStore.Directory.ChangeLifecycle` | v3/internal/identity/accounts.go:307-366 | the transition is applied, or answered exactly why not |
| `OwnerStore.TransactionAlone` | v3/internal/identity/accounts.go:318-348 | a transaction nobody interferes with commits exactly when its request is acceptable and keeps an owner |
| `OwnerEffects.AloneDoes` | v3/internal/identity/accounts.go:305-348 | a transaction alone carries its request out exactly when roles are known, the transition is in the table and another active owner remains if it takes one away; roles or status are then exactly those asked for |
| `OwnerEffects.ChangesAreRequested` | v3/internal/identity/accounts.go:305-366 | for all interleavings, an account changes only by the commit of a transaction begun for it, to exactly what was asked for, along the table of transitions and with known roles |
| `Playback.SnapshotAgreement` | v3/internal/platform/risk.go:476-524 | after a snapshot exactly its session ids are live and the open history rows are exactly the live keys retention kept |
| `Playback.SessionsAgreeWithHistory` | v3/internal/platform/risk.go:476-524 | that agreement holds after every run of snapshots |
| `Playback.FreshRowsSurvive` | v3/internal/platform/risk.go:522 | retention never deletes a row the snapshot itself inserted |
| `Playback.HistoryHoldsMaxima` | v3/internal/platform/risk.go:522-565 | over any run the history has exactly the rows that the snapshots call for, each since the first observation of its key that retention has not passed, and its bitrate and position are the largest of all observations of the key since then |
| `Playback.MaximaNeverFall` | v3/internal/platform/risk.go:564 | every observation of the last snapshot counts, and while a row is kept no later snapshot lowers its bitrate or position |
| `PlaybackEffects.SessionsHoldTheLast` | v3/internal/platform/risk.go:549-556 | after a snapshot exactly its session ids are live, and each holds the last observation of its id |
| `PlaybackEffects.EndedAtTheSnapshot` | v3/internal/platform/risk.go:507-517 | a row observed or found open by a snapshot is afterwards open or ended at its time; any other keeps its end |
| `PlaybackEffects.DevicesFollow` | v3/internal/platform/risk.go:569-584 | over any run a device has a row exactly if it was observed; the row counts the playbacks it began, those that began transcoding, and the largest bitrate it was seen with |
| `Playback.DeviceCountsAddUp` | v3/internal/platform/risk.go:569-584 | the session and transcode counts of all devices add up to the history rows ever inserted |
| `Playback.OpenRowsAreLive` | v3/internal/platform/risk.go:507-517 | after every run, whatever the session ids look like, every open history row belongs to a live session |
| `Playback.OpenExactlyWhen` | v3/internal/platform/risk.go:476-524 | whatever the session ids look like, the row of a seen session that retention kept is open after a snapshot exactly when no observation left its key behind for good and no missing session had the same key |
| `Playback.ColonIdsBreakAgreement` | v3/internal/platform/risk.go:546 | two snapshots with session ids sharing a key: when one session stops, the row of the live one ends |
| `PlaybackStore.Store.IngestPlayback` | v3/internal/platform/risk.go:549-584 | the statements for one session: end what it left, upsert session, history and device |
| `PlaybackStore.Store.CloseOthers` | v3/internal/platform/risk.go:507-517 | sessions not seen end with their history; an empty snapshot ends everything |
| `PlaybackStore.Store.IngestSnapshot` | v3/internal/platform/risk.go:442-532 | the loop over a snapshot, closing and retention amount to the specified step |
| `RiskRules.EvaluateDeviceRules` | v3/internal/platform/risk.go:586-601 | the scan returns the first enabled rule that matches |
| `RiskRuleLaws.AllowWins` | v3/internal/platform/risk.go:90-91 | in the order the rules are listed an allow rule beats every deny rule |
| `RiskRules.JudgeObservation` | v3/internal/platform/risk.go:481-505 | the device rule and then every matching risk rule are applied in order |
| `RiskRuleLaws.JudgeKeeps` | v3/internal/platform/risk.go:627-672 | one event and at most one action per rule, playback and time bucket, and nothing is withdrawn |
| `RiskRuleLaws.AllowedDeviceIsNeverActedOn` | v3/internal/platform/risk.go:494-500 | a playback on an allowed device may raise events but never an action |
| `RiskRuleLaws.RaisedExactlyWhen` | v3/internal/platform/risk.go:481-505 | after judging, an event is in the log exactly if it was there before or belongs to a rule that matches, enabled or not |
| `RiskRuleEffects.MatchesAsCompared` | v3/internal/platform/risk.go:731-745 | a rule's value matches exactly when the texts, without case and outer blanks, are equal, the one is found in or starts the other, or the expression matches, as the operator says |
| `RiskRuleEffects.JudgeDoes` | v3/internal/platform/risk.go:481-505 | one observation raises exactly the events that the first enabled device rule and the risk rules it meets call for, and queues an action exactly for each new event whose first rule does not only observe, names an action and is not overruled by an allowed device |
| `RiskRuleLaws.DisabledRiskRulesStillFire` | v3/internal/platform/risk.go:603-625 | the concrete case: a rule switched off raises its event and queues its action |
| `RiskRuleLaws.FiresAgainExactlyWhen` | v3/internal/platform/risk.go:637-641 | a rule fires again exactly if a multiple of its cooldown lies between the two times |
| `LegacyImport.BalanceReachedExactlyWhen` | v3/internal/legacyimport/importer.go:833-856 | an import reaches the source balance exactly when it is there already or that balance was never posted |
| `LegacyImport.ReturningBalanceIsMissed` | v3/internal/legacyimport/importer.go:850-856 | a balance that goes away and comes back is not followed |
| `LegacyImport.WalletsReachedExactlyWhen` | v3/internal/legacyimport/importer.go:798-811 | wallet by wallet, a run ends at the source balance exactly when that balance was reachable after the history |
| `LegacyImport.ImportReconciles` | v3/internal/legacyimport/importer.go:787-811 | after a first import every wallet matches its source whatever its history sums to, and every reconciler difference is zero |
| `LegacyImport.SecondImportPostsNothing` | v3/internal/legacyimport/importer.go:846-856 | importing an unchanged source again posts nothing |
| `LegacyImport.CurrenciesAgreeExactlyWhen` | v3/internal/reconcile/reconcile.go:572-584 | importer and reconciler name a balance type alike exactly when it is not blank |
| `LegacyImport.BlankTypeIsReported` | v3/internal/reconcile/reconcile.go:386-405 | a wallet with a blank type is reported as two differences of its whole balance |
| `LegacyEffects.HistoryDoes` | v3/internal/legacyimport/importer.go:898-930 | importing history adds exactly one transaction for each mapped entry that is not zero and was not posted before, of its account, currency and amount, and keeps everything else |
| `LegacyEffects.WalletDoes` | v3/internal/legacyimport/importer.go:833-874 | a wallet that is unmapped, negative, at its balance or posted before is left alone; any other gets one transaction of exactly what is missing |
| `LegacyEffects.UnlistedUntouched` | v3/internal/legacyimport/importer.go:798-811 | no account and currency without a mapped wallet is moved by importing balances |
| `LegacyEffects.CurrencyNames` | v3/internal/legacyimport/importer.go:1447-1463 | how the v2 names of balance types are read |
| `ImportStore.Importer.ImportOneWallet` | v3/internal/legacyimport/importer.go:833-874 | post the difference unless it is zero or this balance was posted before |
| `ImportStore.Importer.Run` | v3/internal/legacyimport/importer.go:787-811 | the two loops import every mapped row and count every conflict |
| `ImportStore.SourceWalletTotals` | v3/internal/reconcile/reconcile.go:386-405 | the map holds the total of every currency and an entry exactly for the currencies of a wallet |
| `ImportStore.WalletReport` | v3/internal/reconcile/reconcile.go:261-292 | exactly the currencies of a source wallet, an imported transaction or a wallet today are listed, once and in order, with their totals and the exact difference |
| `ImportStore.WalletBlockers` | v3/internal/reconcile/reconcile.go:324-327 | a wallet blocks the cut-over exactly when some difference is not zero |
| `ImportStore.ImportAndReconcile` | v3/internal/reconcile/reconcile.go:322-328 | a first import of a well-formed source, then the report, leaves no wallet blocker |
| `Automation.AttemptsStayWithinLimit` | v3/internal/platform/community.go:583-608 | the attempts column, and the number each working attempt carries, never exceed the limit |
| `AutomationLimits.OwnAttemptsStayWithinLimit` | v3/internal/platform/community.go:583-608 | when every failure is reported by the worker that owns the event, no more attempts are made than the limit |
| `AutomationLimits.LimitExceededExactlyWhen` | v3/internal/platform/community.go:608 | over any run of any workers, the attempts made are the counter plus what failure reports turned it back by, so they exceed the limit exactly when it was turned back by more than is left |
| `AutomationLimits.EachNumberStartsTwice` | v3/internal/platform/community.go:608 | whatever the workers do, attempt number 1 starts at most once and every other number at most twice for each start of the number before |
| `AutomationLimits.OverlappingAttemptsAreBounded` | v3/internal/platform/community.go:608 | with overlapping attempts and late reports at most two to the limit, less one, attempts are made |
| `AutomationLimits.OverlapBoundIsReached` | v3/internal/platform/community.go:608 | for every limit some run makes that many attempts |
| `Automation.EachRuleAtMostOnce` | v3/internal/platform/community.go:615-673 | for attempts of any workers that start one after the other, with failures and crashes anywhere, each rule's actions commit at most once, exactly when recorded, and a succeeded event has a record for every rule its last attempt found enabled |
| `Automation.EffectsAreCounted` | v3/internal/platform/community.go:657-671 | over any run of any workers, a rule's actions were committed once if its record says so, and once more for every success a late failure overwrote |
| `Automation.CommitsTwiceExactlyWhen` | v3/internal/platform/community.go:657-671 | over any run, a rule commits more than once exactly when a late failure overwrote a success of it and it ran again |
| `AutomationRuns.UndisturbedAttemptSucceeds` | v3/internal/platform/community.go:583-608 | whatever earlier attempts of any workers left, an undisturbed attempt in which every remaining rule goes through succeeds, and no rule has run twice |
| `AutomationEffects.AttemptDoes` | v3/internal/platform/community.go:570-673 | an attempt in which everything works carries out every enabled rule of the event's kind that meets its conditions and was not settled before, records those that do not as skipped, and touches no other rule |
| `AutomationEffects.ActDoes` | v3/internal/platform/community.go:634-671 | what the transaction of one rule leaves of its record and effects, however it ends |
| `AutomationEffects.FinishDoes` | v3/internal/platform/community.go:597-600 | only the owner's success closes the event |
| `AutomationEffects.RetriedExactlyWhen` | v3/internal/platform/community.go:601-608 | after a failure another attempt can be made exactly when it was not permanent, attempts are left and the back-off has passed |
| `AutomationEffects.LeaseEndsExactlyWhen` | v3/internal/platform/community.go:580-592 | somebody else can claim a claimed event exactly when its lease has run out and attempts are left |
| `AutomationRuns.StrandedForever` | v3/internal/platform/community.go:580 | with its attempts used up and no worker on it, an event never changes again, whatever any worker does |
| `AutomationRuns.CrashStrandsExactlyWhen` | v3/internal/platform/community.go:580 | after a crash of the only worker some run starts another attempt exactly when the lost one was not the last; otherwise the event says `running` for ever |
| `AutomationRuns.UnfinishedIsRetried` | v3/internal/platform/community.go:580 | with attempts left, waiting makes every unfinished event claimable again |
| `AutomationRuns.OverlapRunsTwice` | v3/internal/platform/community.go:657-662 | the concrete case: a late failure overwrites the success record and the retry runs the rule again |
| `AutomationRuns.ClaimIsExclusive` | v3/internal/platform/community.go:580-592 | while its lease lasts and no attempt ends, nobody else starts an attempt at a claimed event |
| `AutomationStore.MatchConditions` | v3/internal/platform/community.go:675-682 | every condition equals the payload field |
| `AutomationStore.AutomationEvent.ExecuteRule` | v3/internal/platform/community.go:620-671 | one rule is skipped if settled, and otherwise recorded with its actions, or fails in its actions or in storage |
| `AutomationStore.AutomationEvent.ProcessNext` | v3/internal/platform/community.go:570-613 | claim, loop over the rules and closing update amount to one attempt, with any failure of a rule or of the rule list |

## Left out

- HTTP routes, the bot, the web front end, health checks, logging, configuration and process control.
- The Emby, TMDB and MoviePilot clients: a remote call is only whether it takes effect and whether it says so.
- Cryptography, random tokens and identifiers: given values, assumed fresh or injective where the code assumes it.
- JSON encoding, SQL text, audit rows, list and pagination queries: tables are maps and sequences of the columns the properties read.
- 64-bit overflow of sums and durations; only the negation of the smallest integer is modelled.
- Media requests, tickets, reviews, favorites, line and integration probes, notifications and their delivery.
- CreateBatch, EnqueueInstanceTask, ScheduleDue and RequestProvisioning: they only insert the rows the machines start from.
- The adapter tables of the importer and the non-wallet checks of the reconciler: flat row mappings and counts.
- LegacyImport.Truncated: cuts after 16 characters where the code cuts after 16 bytes; the two agree on ASCII names, the only ones in use.
- LegacyImport.ImportReconciles: assumes one non-negative wallet row for each mapped account and currency, no blank balance type, a wallet row for each pair in the history, and balances never posted before; WalletsReachedExactlyWhen says wallet by wallet what happens without the last one.
- ProvisionLaws.AtMostOneUser: assumes that the server keeps names unique and that nobody removes or renames the user who has the requested name.
- RiskPromises.RevertRestores: assumes that one attempt runs at a time, that a call which takes effect does so before the attempt ends, and that nobody else changes the flag.
- BatchRounds.ExactlyOnce: executors one after the other; Batch.EffectsAreCounted covers overlapping ones.
- Automation.EachRuleAtMostOnce: attempts that start one after the other; Automation.EffectsAreCounted covers overlapping ones.
- AutomationLimits.OwnAttemptsStayWithinLimit: failures reported by the owner only; AutomationLimits.OverlappingAttemptsAreBounded covers the others.
- Playback.SessionsAgreeWithHistory: session ids without a colon; Playback.OpenExactlyWhen says for all ids when a row is open.
- TaskQueue.Step: one task row; that a claim picks the oldest eligible row is not modelled.
- RiskRules.MatchValue: regular expressions are an arbitrary function of pattern and value.
- RiskRules.Judge: the number of a user's concurrent sessions in the snapshot is a parameter.
- CommerceService.Service: a failing statement other than the ones modelled also rolls back and is not listed; PurchaseMembership takes the answer of the membership assignment as the flag `planOk`, which MembershipSales.Purchase computes.
