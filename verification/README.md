# Money, webhooks, sessions and books

This project models the stateful core of a book store's backend and proves what its parts promise over whole runs:

- **The ledger** (`Database`, `Wallet`, `Deposits`, `Withdrawals`, `Orders`, `LedgerRuns`, `Purchases`, `OrderCharges`,
  `LateWrites`, with `Sums`). Transaction rows go from PENDING to SUCCESS or FAILED and move wallet balances. The services
  are methods on a database object; each is proved against a function on a ledger value. What each function decides and
  writes is stated once more from the columns alone, and the laws over runs (ledger equation, absorption, non-negative
  balances, conservation at checkout) are lemmas about the functions. The debit guard is a parameter of the ledger;
  `DecimalText` says when the textual comparison of the code is the numeric one, and `DebitGuard` what a ledger with it
  keeps.
- **Webhooks** (`PaystackWebhooks`, `CryptoWebhooks`, `WebhookQueue`, `WebhookOrder`, `WebhookQueueServices`, `Delivery`). The
  delayed queue is a step system in which ticks, adds and the steps of a pass interleave at every suspension point; the
  service class runs against arbitrary interference and stays within the step system. `Delivery` composes the queue with
  the charge handlers, one database command a step.
- **Sessions, codes and PINs** (`Redis`, `SessionKeys`, `RevocationEpochs`, `SessionLines`, `RefreshRotation`,
  `SimpleSessions`, `ResendThrottle`, `PinLimiter`), on a key-value store with lifetimes. Refresh tokens with their
  epochs refine a table of sessions; limiter and throttle are characterised by the history of their calls alone.
- **Books** (`R2`, `BookFiles`, `BookServices`, `BookCache`): storage references, upload compensation, and the read cache.
- **Arithmetic and decoding** (`PriceFeed`, `CryptoDeposit`): rounded decimal chains, and ABI-encoded log data as in the
  Contract ABI Specification, section "Formal Specification of the Encoding".

Time is a natural number of milliseconds, amounts are reals or integers without bounds, a database transaction is all or
nothing. Randomness (references, tokens, storage keys, job identifiers), provider and chain answers, clocks and the outcome
of every command are parameters or free choices.

`dafny verify dfyconfig.toml` checks the whole project.

## Model

| member | source | states |
|---|---|---|
| `LedgerRuns.LedgerEquation` | src/payments/deposit/deposit.service.ts:137-232 | After any run of the money handlers every balance is its opening balance plus the signed effects of the journal: the transitions of rows out of PENDING, with amounts fixed by type, method and transition, the `+amount` of a failed transfer included |
| `LedgerRuns.JournalOfRun` | src/payments/deposit/deposit.service.ts:137-232 | The journal lists exactly the rows that left PENDING in the run, each once, and each row ends with the outcome of its entry; rows settled before stay as they are |
| `LedgerRuns.StepPosts` | src/payments/withdrawal/withdrawal.service.ts:173-247 | One handler moves each balance by what its single journal entry posts to that wallet, and moves nothing without an entry |
| `LedgerRuns.StepRows` | src/payments/withdrawal/withdrawal.service.ts:119-247 | One handler adds rows or gives a pending row a status; the only row it settles is that of its journal entry |
| `LedgerRuns.StatusAbsorption` | src/payments/deposit/deposit.service.ts:185-232 | SUCCESS and FAILED never change again, and no other recorded field of a row ever changes |
| `LedgerRuns.NeverNegative` | src/wallet/wallet.service.ts:51-88 | From non-negative opening balances no reachable state has a negative balance, in every run in which the debit guard answers each debit as the numbers do |
| `LedgerRuns.NonNegativeIffCovered` | src/wallet/wallet.service.ts:68-88 | Whatever the guard: every state of a run is non-negative if and only if every debit the run makes is covered by the balance, for a buying author together with the income |
| `LedgerRuns.NumericGuardNeverNegative` | src/wallet/wallet.service.ts:80-82 | A guard that compares numbers keeps every run non-negative |
| `LedgerRuns.OrdersOfRun` | src/payments/shared/order.service.ts:31-80 | In every state between calls, also after a creation that threw, each order total is the sum of its line prices; lines and total survive later price edits |
| `LedgerRuns.CausesFitRows` | src/payments/deposit/deposit.service.ts:185-232 | For every run, which transitions a row can make by its type and method: verification only for deposits, transfers only for Paystack withdrawals; a successful charge is not checked against the type |
| `LedgerRuns.RunWellFormed` | prisma/schema.prisma:128-152 | In every reachable state the hash index and the rows name each other, and each type of row has its wallets and settled states |
| `LateWrites.PromptRunsAreLedgerRuns` | src/payments/withdrawal/withdrawal.service.ts:175-187 | With the last write of a Paystack withdrawal as a step of its own: runs in which each such write finds its row pending are runs of the handlers as single steps, so every law of these holds for them |
| `LateWrites.SettledStaysIff` | src/payments/withdrawal/withdrawal.service.ts:175-187 | A settled row stays as it is through a run if and only if no last write of that row lands in it |
| `LateWrites.LateWriteDebitsTwice` | src/payments/withdrawal/withdrawal.service.ts:175-222 | When the transfer is reported before that write and once more after it, the wallet is debited twice, for every accepted withdrawal whose two debits pass the guard |
| `Deposits.InitiateDeposit` | src/payments/deposit/deposit.service.ts:54-99 | Records one pending row exactly when the method is supported, the user has a wallet and reference and hash are free; returns exactly when the provider then answers, and when it throws the row stays |
| `Deposits.DepositRecords` | src/payments/deposit/deposit.service.ts:54-99 | From the columns alone: a pending row of that amount for the wallet of the user is recorded if and only if the method is PAYSTACK or CRYPTO, the user has a wallet and reference and hash are free; nothing else is written |
| `Deposits.VerifyDeposit` | src/payments/deposit/deposit.service.ts:102-183 | Credits the verified amount and marks SUCCESS exactly for a pending row of the hash whose payment was verified; the Paystack branch never credits |
| `Deposits.VerificationPays` | src/payments/deposit/deposit.service.ts:137-183 | From the columns alone: a verification pays if and only if it succeeded with a positive amount for the hash of a pending row whose wallet exists, and then the wallet gains that amount, the row is SUCCESS and nothing else changes |
| `Deposits.HandleSuccessfulPaystackDeposit` | src/payments/deposit/deposit.service.ts:185-220 | Credits and marks SUCCESS exactly when no response is on record and the row is pending with a wallet that can be credited; any failure leaves the database as it was |
| `Deposits.RecordedChargeIsLeft` | src/payments/deposit/deposit.service.ts:188-195 | A charge whose response is on record for Paystack changes nothing |
| `Deposits.ChargePays` | src/payments/deposit/deposit.service.ts:185-220 | From the columns alone: a charge pays if and only if Paystack has no response on record for it and its row is pending with a positive amount and an existing wallet, and then the wallet gains the amount of the row, the row is SUCCESS and nothing else changes |
| `Deposits.HandleFailedPaystackDeposit` | src/payments/deposit/deposit.service.ts:222-232 | Marks a pending row FAILED and moves no money |
| `Deposits.FailedChargeMarks` | src/payments/deposit/deposit.service.ts:222-232 | A failed charge changes the ledger if and only if its row is pending, and then only the status of that row, to FAILED |
| `Withdrawals.InitiateWithdrawal` | src/payments/withdrawal/withdrawal.service.ts:119-196 | The state after each way the provider and the final update can end; a crypto withdrawal is debited, a Paystack one is not, and a clash of hashes leaves the debit with a FAILED row |
| `Withdrawals.WithdrawalRecords` | src/payments/withdrawal/withdrawal.service.ts:119-158 | For every method and from the columns alone: a row is recorded if and only if the method is PAYSTACK or CRYPTO, the user has an existing wallet whose balance is not below the amount and the reference is free; it has that amount and names the wallet on both sides; otherwise the ledger is unchanged |
| `Withdrawals.WithdrawalEnds` | src/payments/withdrawal/withdrawal.service.ts:173-196 | What a recorded withdrawal has done by method and answer of the provider: who is debited, which hash is taken, and the status |
| `Withdrawals.HandleSuccessfulPaystackWithdrawal` | src/payments/withdrawal/withdrawal.service.ts:198-222 | Debits and marks SUCCESS a pending withdrawal its wallet covers, or changes nothing |
| `Withdrawals.TransferPays` | src/payments/withdrawal/withdrawal.service.ts:198-222 | From the columns alone: a reported transfer debits if and only if its row is a pending withdrawal of a positive amount whose wallet exists and passes the guard; then the sender loses that amount and the row is SUCCESS |
| `Withdrawals.HandleFailedPaystackWithdrawal` | src/payments/withdrawal/withdrawal.service.ts:224-247 | Marks a pending withdrawal FAILED and credits the amount, or changes nothing |
| `Withdrawals.FailedTransferPaysBack` | src/payments/withdrawal/withdrawal.service.ts:224-247 | From the columns alone: a failed transfer credits if and only if its row is a pending withdrawal of a positive amount whose wallet exists; then the sender gains that amount and the row is FAILED |
| `Wallet.Credit` | src/wallet/wallet.service.ts:51-66 | Adds the amount exactly when it is positive and the wallet exists |
| `Wallet.Debit` | src/wallet/wallet.service.ts:68-88 | Subtracts the amount exactly when it is positive, the wallet exists and the guard, whatever it is, does not call the balance below it |
| `Wallet.RecordTransaction` | src/payments/shared/transaction.service.ts:18-24 | Inserts the row exactly when neither its reference nor its hash is taken |
| `Wallet.UpdateStatus` | src/payments/shared/transaction.service.ts:70-80 | Changes the status of an existing row and nothing else |
| `Wallet.UpdateStatusAndHash` | src/payments/shared/transaction.service.ts:70-80 | Also sets the hash, unless another row has it: then it throws and writes nothing; a hash it replaces is free again |
| `DecimalText.TextOrder` | src/wallet/wallet.service.ts:80 | What `<` on two texts of digits decides: the numeric order after the shorter one is filled up with zeros on the right |
| `DecimalText.GuardIsNumeric` | src/wallet/wallet.service.ts:80-82 | For all non-negative decimals, printed plainly or, below 1e-6 and from 1e21 on, with an exponent: the guard agrees with the numeric order if and only if a condition on the digits holds. For two plain numbers: equally many digits before the point, or the shorter whole part, filled up with zeros, is not above the longer one. With an exponent the mantissa digits are compared as they stand, so the agreement depends on which side is the tiny one |
| `DecimalText.ValuePrintsOnce` | src/wallet/wallet.service.ts:80 | Two decimals of one value have one text, so the guard is a relation on numbers |
| `DebitGuard.TextGuardNeverNegative` | src/wallet/wallet.service.ts:80-82 | A ledger with the textual guard stays non-negative in every run whose debits compare numbers that meet this condition |
| `DebitGuard.TextGuardGoesNegative` | src/wallet/wallet.service.ts:80-82 | Without it not: from a balance of 9 one checkout of an order over 10 takes the buyer to -1 |
| `DecimalText.WrongAnswers` | src/wallet/wallet.service.ts:80-82 | Three inputs on which the textual guard is wrong: a balance of 9 passes for 10, a balance of 10 is refused 9, and a balance of 5e-7 passes for 10 |
| `Orders.CreateOrder` | src/payments/shared/order.service.ts:31-80 | Returns exactly when the counts agree; the new order holds the prices and authors of the books now, and a throw leaves an empty order of total zero |
| `Orders.CountsAgreeMeans` | src/payments/shared/order.service.ts:51-66 | Comparing the number of found books with the number of ids passes exactly when the ids are duplicate-free and each names a book |
| `Orders.CreatedOrderWrites` | src/payments/shared/order.service.ts:31-80 | Creating an order writes order rows only, keeps the existing ones, and every total it writes is exact |
| `Purchases.OrderHolds` | src/payments/shared/order.service.ts:31-80 | For duplicate-free ids of existing books the new order is the pending order of the user with exactly these books as lines, each at the price and author its book has now, and its total is the sum of these prices, added up over the request; any other list leaves an empty order of total zero |
| `Orders.SumPrices` | src/payments/shared/order.service.ts:66-72 | The accumulated total is the sum over the lines, in whatever order they are visited |
| `Orders.CreateOrderCheckout` | src/payments/order-payment/order-payment.service.ts:35-161 | The state after a checkout by each payment method, commit or rollback |
| `Orders.PayFromWallet` | src/payments/order-payment/order-payment.service.ts:73-92 | Commits exactly when the buyer covers the total and every author group can be credited, and then has moved exactly those amounts and marked the order PAID |
| `Orders.GroupByAuthor` | src/payments/order-payment/order-payment.service.ts:80-84 | The grouping maps exactly the authors of the lines to the sums of their line prices |
| `Orders.CreditAuthors` | src/payments/order-payment/order-payment.service.ts:86-89 | The loop over the groups credits each author once and fails exactly when one of them cannot be credited |
| `Orders.SharesBalance` | src/payments/order-payment/order-payment.service.ts:73-105 | What the buyer loses and what the authors gain sum to zero over all wallets, also when the buyer is an author |
| `Orders.WalletCheckoutConserves` | src/payments/order-payment/order-payment.service.ts:35-105 | A committed wallet checkout changes each balance by exactly its share, keeps the sum over all wallets, and leaves the order PAID and the row SUCCESS; a checkout that fails anywhere leaves the whole state unchanged |
| `Orders.WalletPaysExactly` | src/payments/order-payment/order-payment.service.ts:35-105 | A wallet checkout of an existing order pays exactly when the user owns it, the reference is free, the balance passes the guard and every author group can be credited, whatever the status of the order |
| `Purchases.PurchaseCharges` | src/payments/order-payment/order-payment.service.ts:35-105 | A wallet checkout of a new order takes from the buyer exactly the current prices of the requested books, gives each author the prices of that author's books among them, and leaves the order PAID with a SUCCESS row over its total; it happens if and only if catalogue, ids, reference, balance and wallets allow it, and otherwise nothing changes |
| `Purchases.ExternalCheckoutRecords` | src/payments/order-payment/order-payment.service.ts:107-161 | A checkout of an existing order by another method records a row over its total if and only if the user owns it and the reference is free, FAILED when Paystack refuses and pending otherwise, and changes nothing else |
| `Purchases.ExternalPurchaseRecords` | src/payments/order-payment/order-payment.service.ts:107-161 | The same for a new order, together with the order at the prices of now |
| `OrderCharges.PaidOrderIsChargedAgain` | src/payments/order-payment/order-payment.service.ts:47-51 | After a paid checkout in a run, a further checkout of the same order is journaled as a second wallet payment and lowers the balance of the buyer again, whenever some line has another author |
| `OrderCharges.ChargedAtMostOnceIff` | src/payments/order-payment/order-payment.service.ts:47-51 | A run charges an order at most once if and only if after each charge every wallet checkout of it fails on ownership, reference, balance or an author's wallet |
| `OrderCharges.OneOrderChargedTwice` | src/payments/order-payment/order-payment.service.ts:47-51 | Such a run, with a guard on numbers: a buyer with 30 pays an order over 10 under two references and ends with 10 |
| `CryptoWebhooks.ProcessQueuedCryptoWebhook` | src/webhook/webhook.service.ts:190-301 | The loops over logs and transactions, with the set of hashes already seen, process exactly the hashes of the payload in order |
| `CryptoWebhooks.ProcessHash` | src/webhook/webhook.service.ts:234-260 | A hash of a withdrawal or one with a recorded response is skipped, any other is verified and settled |
| `CryptoWebhooks.HashPays` | src/webhook/webhook.service.ts:234-260 | From the columns alone: a hash pays if and only if it is no withdrawal's, no response of the crypto provider is on record for it, and its verification succeeded with a positive amount for a pending row whose wallet exists |
| `CryptoWebhooks.LogHashesIff` | src/webhook/webhook.service.ts:202-232 | A hash of the logs is taken to verification if and only if it is not empty and the data of its first log decode |
| `CryptoWebhooks.LogHashesOnce` | src/webhook/webhook.service.ts:202-232 | and it is taken once |
| `CryptoWebhooks.ProcessedAllIsSettled` | src/webhook/webhook.service.ts:190-301 | Processing a sequence of hashes has the same result as settling their set at once: each hash is credited at most once, in whatever order and however often it comes |
| `CryptoWebhooks.Confluence` | src/webhook/webhook.service.ts:190-301 | Two deliveries whose payloads yield the same set of hashes end in the same balances and statuses |
| `CryptoWebhooks.DecodableConfluence` | src/webhook/webhook.service.ts:202-232 | When all log data decodes, that set is the set of hashes the payloads contain, however logs are split over them |
| `CryptoWebhooks.UndecodableOrderMatters` | src/webhook/webhook.service.ts:206-219 | The condition is needed: one undecodable log before a decodable one of the same creditable hash leaves the ledger as it was, the other order settles the deposit |
| `CryptoWebhooks.DeliveriesAgreeIff` | src/webhook/webhook.service.ts:190-301 | Two deliveries end in the same state if and only if they take the same creditable hashes to verification |
| `PaystackWebhooks.HandlePaystackWebhook` | src/webhook/webhook.service.ts:81-109 | A signed delivery that names a reference is queued only with its response on record, and writes nothing else |
| `PaystackWebhooks.ProcessQueuedPaystackWebhook` | src/webhook/webhook.service.ts:146-171 | Each of the four known events runs its handler; an unknown one touches nothing |
| `PaystackWebhooks.ChargeSuccessPays` | src/webhook/webhook.service.ts:146-152 | The job "charge.success" adds the amount of a pending row to the existing wallet of its recipient and turns it SUCCESS, unless the response is on record or the amount is not positive |
| `PaystackWebhooks.ChargeFailedMarks` | src/webhook/webhook.service.ts:152-154 | The job "charge.failed" moves no balance and turns a pending row FAILED |
| `PaystackWebhooks.TransferSuccessDebits` | src/webhook/webhook.service.ts:155-159 | The job "transfer.success" subtracts the amount of a pending withdrawal from the wallet of its sender, if it is positive and the guard allows it |
| `PaystackWebhooks.TransferFailedCredits` | src/webhook/webhook.service.ts:160-164 | The job "transfer.failed" adds the positive amount of a pending withdrawal to the wallet of its sender |
| `PaystackWebhooks.OtherJobsChangeNothing` | src/webhook/webhook.service.ts:146-171 | A job of any other name, and any job for a missing or settled row, leaves the ledger as it is |
| `WebhookQueue.OnePassAndNoEarlyStart` | src/webhook/webhook-queue.service.ts:46-82 | In every interleaving, with any faults: at most one pass is past its entry check, the flag is up exactly while there is one, and no job starts before its score |
| `WebhookQueue.NoStartWithinThreeSeconds` | src/webhook/webhook-queue.service.ts:36-39 | In every interleaving, with any faults: no job is started within 3000 ms of the call that adds it |
| `WebhookQueue.EachJobOnce` | src/webhook/webhook-queue.service.ts:61-78 | In every interleaving without a crash or a failed removal no job starts twice; a job that landed is waiting and not started, in hand and started, or gone and started |
| `WebhookQueue.DispatchesInOrder` | src/webhook/webhook-queue.service.ts:50-61 | In such runs with adds that land before their score, starts are in order of score across all passes |
| `WebhookQueue.DueJobsAreDoneBetweenPasses` | src/webhook/webhook-queue.service.ts:46-82 | In such runs, between passes, the jobs gone from the queue are exactly those due at the last snapshot, and exactly these were started, each once |
| `WebhookQueue.LateAddBreaksOrder` | src/webhook/webhook-queue.service.ts:36-39 | Without punctual adds order is lost: a fault-free run starts a job after one with a later score |
| `WebhookOrder.SortedIff` | src/webhook/webhook-queue.service.ts:36-78 | In every run without a crash or a failed removal: jobs are started in order of score if and only if no started job was overtaken, that is, landed when a job with a later score was already started or in the snapshot of a pass |
| `WebhookOrder.PunctualIsNeverLate` | src/webhook/webhook-queue.service.ts:36-53 | An add that lands before its score is never overtaken |
| `WebhookQueueServices.WebhookQueueService.ProcessQueue` | src/webhook/webhook-queue.service.ts:46-82 | A tick during a pass changes nothing; otherwise the flag is down at the end however the pass ended, and when it returns every job due at its start was started in order of score and has left the queue |
| `WebhookQueueServices.WebhookQueueService.FinishJob` | src/webhook/webhook-queue.service.ts:64-77 | A failed removal inside the try block is repeated by the catch block; a job that fails is removed like one that succeeds; the other jobs stay |
| `WebhookQueueServices.WebhookQueueService.AddToQueue` | src/webhook/webhook-queue.service.ts:26-44 | The job is there with a score three seconds from now when the call returns; when it throws the job is there or not |
| `WebhookQueueServices.RangeByScore` | src/webhook/webhook-queue.service.ts:51-53 | The range query returns exactly the due jobs, each once, in order of score |
| `Delivery.CreditedAtMostOnce` | src/payments/deposit/deposit.service.ts:185-232 | Queue and charge handlers composed, command by command, with redelivery after crashes, other requests being single steps: once a row has left PENDING nothing moves money for it again, so a deposit, with a hash or without, is credited at most once and never after it was declined |
| `Delivery.ChargeWithoutInterruption` | src/payments/deposit/deposit.service.ts:185-220 | The commands of a charge.success handler, run without interruption, make exactly the change of the service method |
| `Delivery.DeclineWithoutInterruption` | src/payments/deposit/deposit.service.ts:222-232 | and those of a charge.failed handler that of the other |
| `Delivery.PlainDepositSettlesOnce` | src/payments/deposit/deposit.service.ts:185-232 | Whatever jobs are queued, also ones the endpoint would not queue: a Paystack deposit recorded without a hash makes at most one transition out of PENDING, and its row says which |
| `Delivery.SettledRowIsFinalIff` | src/payments/deposit/deposit.service.ts:222-232 | In every reachable state a settled row is final if and only if it is not a paid one that a charge.failed handler has read as pending and still has to write |
| `Delivery.PlainDepositIsFinal` | src/payments/deposit/deposit.service.ts:185-232 | From any reachable state on, a settled Paystack deposit without a hash stays as it is |
| `Delivery.InterleavedLedgerEquation` | src/webhook/webhook-queue.service.ts:61-78 | The ledger equation also holds command by command, handlers acting on rows read earlier included |
| `Delivery.PaidDepositIsMarkedFailed` | src/payments/deposit/deposit.service.ts:222-232 | Such rows exist behind the endpoint: charge.failed reads a deposit as pending, a verification of its hash pays it, and the write then marks the paid deposit FAILED while the credit stays |
| `Delivery.RecordedChargesAreNeverPaid` | src/webhook/webhook.service.ts:100-105 | When every job comes through the endpoint, no charge.success ever credits a deposit: its response is on record before the job is queued |
| `RevocationEpochs.PassedChecksAreUnrevoked` | src/auth/auth.service.ts:188-213 | In every interleaving of single Redis commands in which no refresh or logout presents the name of an epoch: a refresh that passes its check was not overtaken by a revocation of its user, or of everybody, between the epoch reads at issuance and the reads of the check |
| `RevocationEpochs.CheckIsExact` | src/auth/auth.service.ts:200-213 | In such runs the check passes exactly when there was no such revocation between the reads it compares |
| `RevocationEpochs.ForgottenEpochPasses` | src/auth/auth.service.ts:241-244 | The condition is needed, for every user, both revocations and both calls: tokens and epochs share their keys, and once the name of the bumped epoch was presented as a token, a session issued before the revocation passes again |
| `RevocationEpochs.SafeToPresentIff` | src/auth/auth.service.ts:188-244 | Both halves in one, per presented text: however often it is presented, no check that a revocation overtook passes, if and only if the text is not the name of an epoch |
| `SessionLines.RevocationEndsLineIff` | src/auth/auth.service.ts:188-239 | In every reachable state, for a revocation of everybody or of the user of a login: that login and the tokens handed on from it pass a check again afterwards, in some continuation, if and only if one of their calls is crossing the revocation, past its check or about to pass it, with the bumped epoch still to be read |
| `SessionLines.StepDead` | src/auth/auth.service.ts:188-239 | Without such a call no step brings the session back: no check of it passes, and all that is left of it stays behind an epoch |
| `SessionKeys.NamesEpochMeans` | src/auth/auth.service.ts:48-71 | The presented texts whose key is that of an epoch are exactly `epoch:global` and those that begin with `epoch:user:` |
| `RevocationEpochs.StepFits` | src/auth/auth.service.ts:48-71 | Every command, unless it presents such a name, keeps the epochs equal to the numbers of revocations that had happened when they were read |
| `RevocationEpochs.RefreshWithoutInterruption` | src/auth/auth.service.ts:188-239 | The commands of a refresh, run without interruption: the presented key is gone, and if it held a token under the current epochs, of a user who is found, the drawn token is stored for the same user under these epochs |
| `RefreshRotation.AcceptedOnce` | src/auth/auth.service.ts:188-239 | Over a whole run, whatever texts calls present, no refresh token is accepted twice, and an accepted one is dead at every later instant |
| `RefreshRotation.OneLiveTokenPerLineage` | src/auth/auth.service.ts:188-244 | In every reachable state at most one token of the lineage of a login is live |
| `RefreshRotation.RotationHandsOn` | src/auth/auth.service.ts:215-239 | An accepted refresh kills the presented token and leaves its successor live and acceptable in the same lineage |
| `SimpleSessions.AcceptsAsTheTable` | src/auth/auth.service.ts:48-260 | The epochs refine a table of sessions from which a revocation deletes: after every run whose calls present no name of an epoch, at every instant, exactly those tokens are accepted that belong to an existing user, were issued less than the lifetime ago, and have not been presented to a refresh or a logout, or been revoked, since |
| `RefreshRotation.AuthService.Refresh` | src/auth/auth.service.ts:188-239 | Returns exactly for a live token under the current epochs whose user exists; any other live key that is presented is deleted, a counter too |
| `RefreshRotation.AuthService.GenerateRefreshToken` | src/auth/auth.service.ts:58-71 | Stores the user with both current epochs under the token key with the configured lifetime, so that the drawn token is valid |
| `RefreshRotation.AuthService.Logout` | src/auth/auth.service.ts:241-244 | The presented token is invalid from then on; the epochs stay unless the text is the name of one |
| `RefreshRotation.AuthService.RevokeUserSessions` | src/auth/auth.service.ts:249-252 | Bumps the epoch of the user, so that every token issued under an earlier one is no longer valid |
| `RefreshRotation.AuthService.RevokeAllSessions` | src/auth/auth.service.ts:257-260 | Bumps the global epoch, so that every token issued under an earlier one is no longer valid |
| `PinLimiter.VerifyUserPin` | src/payments/withdrawal/withdrawal.service.ts:80-117 | The verdict and the counter after an attempt |
| `PinLimiter.VerdictIff` | src/payments/withdrawal/withdrawal.service.ts:80-117 | Over every timed run, from the attempts alone: an attempt is locked out if and only if the last three wrong PINs of the user follow each other, and it them, in less than 900 seconds; otherwise, when a PIN is set, it is accepted if and only if it is valid and rejected if and only if it is not |
| `PinLimiter.RemainingCounts` | src/payments/withdrawal/withdrawal.service.ts:101-115 | A rejected user is told three less the wrong PINs of the unexpired chain, this one included |
| `PinLimiter.RunTracks` | src/payments/withdrawal/withdrawal.service.ts:80-117 | In every reachable state the counter of a user is the streak of that user's failures with gaps under 900 seconds, and expires 900 seconds after the last of them |
| `PinLimiter.ChainsAreShort` | src/payments/withdrawal/withdrawal.service.ts:80-117 | Any chain of failures with successive gaps under 900 seconds has at most 3 members, successes in between notwithstanding |
| `PinLimiter.WindowsAreShort` | src/payments/withdrawal/withdrawal.service.ts:80-117 | So has any 900-second half-open window |
| `PinLimiter.NextVerdict` | src/payments/withdrawal/withdrawal.service.ts:92-115 | An attempt is locked out exactly when the last 3 failures form an unexpired streak, and the reported remaining count is 0, 1 or 2 |
| `PinLimiter.WaitingUnlocks` | src/payments/withdrawal/withdrawal.service.ts:92-115 | An attempt 900 seconds after the last failure is always evaluated |
| `ResendThrottle.SendsAreSpaced` | src/auth/auth.service.ts:965-994 | Two fresh sends of a code are at least 300000 ms apart unless the code was used up in between |
| `ResendThrottle.VerificationSendsAreSpaced` | src/auth/auth.service.ts:612-692 | For verification codes also across successful verifications and registrations of the address, the code written by a registration counting as sent, unless an administrator declares the account unverified in between |
| `ResendThrottle.VerificationCodeStays` | src/auth/auth.service.ts:103-107 | While the record of an address lives its code stays, unless an account is registered with the address in between |
| `ResendThrottle.CodeNeverChanges` | src/auth/auth.service.ts:569-596 | While the record of a PIN reset lives its code never changes |
| `ResendThrottle.SentIff` | src/auth/auth.service.ts:569-596 | A request is answered by a fresh send if and only if the last send is not one of the last 300000 ms, or its code was used up |
| `ResendThrottle.AcceptedIff` | src/auth/auth.service.ts:891-927 | A confirmation is accepted if and only if it presents the code of the last send within the lifetime of that code and the code was not used up |
| `ResendThrottle.CodeIsKeptOrDrawn` | src/auth/auth.service.ts:569-596 | A send repeats the code of the last one as long as that lives and is not used up, and draws a new one otherwise |
| `ResendThrottle.RetryIsLeast` | src/auth/auth.service.ts:630-648 | The reported wait is in 1..300 and is the least whole number of seconds after which a request is sent |
| `ResendThrottle.UsedUpReopens` | src/auth/auth.service.ts:891-927 | A used-up PIN reset code reopens the throttle at once |
| `ResendThrottle.VerificationMailIsNotThrottled` | src/auth/auth.service.ts:598-610 | The verification mail leaves also when the request is refused |
| `ResendThrottle.CodeService.GenerateAndStore` | src/auth/auth.service.ts:569-596 | Keeps a young code, renews an old one under the same code, and draws a new one otherwise |
| `ResendThrottle.CodeService.RequestVerification` | src/auth/auth.service.ts:612-651 | Which requests are refused, which are sent, and what the throttled ones are told |
| `ResendThrottle.CodeService.RequestPinReset` | src/auth/auth.service.ts:873-889 | The same for PIN resets, whose mail leaves only with a fresh send |
| `ResendThrottle.CodeService.VerifyEmail` | src/auth/auth.service.ts:653-692 | A code is accepted exactly for an existing unverified account and when a live record holds it; it is then used up and the account verified |
| `ResendThrottle.CodeService.ConfirmPinReset` | src/auth/auth.service.ts:891-927 | A code is accepted exactly for an existing account and when a live record holds it, and is then used up |
| `Redis.SetLivesForItsLifetime` | src/redis/redis.service.ts:36-46 | A value that was set is read exactly in [t, t + lifetime), without a lifetime for ever; other keys are not touched |
| `Redis.ExpireRenewsLiveKeys` | src/redis/redis.service.ts:52-54 | EXPIRE gives what was live a new lifetime from now on and revives nothing |
| `Redis.IncrementKeepsLifetime` | src/redis/redis.service.ts:56-58 | INCR goes on from the live count within its lifetime, and starts at one without a lifetime otherwise |
| `Redis.Incr` | src/redis/redis.service.ts:56-58 | The returned count is the live value under the key |
| `BookFiles.RowsNeverDangle` | src/books/books.service.ts:129-152 | In every interleaving of stores and updates, with uploads, deletions and row writes that fail or only seem to, and calls that die anywhere: each reference in a book row leads to a stored object, unless the creation of that very row was applied and reported as failed; and no object is named twice |
| `BookFiles.LostCreationDangles` | src/books/books.service.ts:129-152 | The condition is needed: after such a creation the compensation deletes both objects of the row that is there |
| `BookFiles.StepSound` | src/books/books.service.ts:335-372 | Every upload, write and deletion keeps this, together with what makes it last: what a call deletes no row names and nobody is about to name, rows lost at their creation excepted |
| `BookFiles.CleanRunsLeaveNoOrphans` | src/books/books.service.ts:129-152 | Between calls of a serial run in which failed uploads and creations leave nothing and deletions and update writes succeed, the stored objects are exactly the referenced ones |
| `BookServices.BookService.StoreBook` | src/books/books.service.ts:113-153 | On success both files are stored and named; on failure the rows are as before unless the creation was applied all the same, and, when nothing fails halfway, so is the storage |
| `BookServices.BookService.UpdateBook` | src/books/books.service.ts:309-375 | On success exactly the columns with a new file change and what they named is gone; after a failed row write, applied or not, the new objects stay behind |
| `BookServices.BookService.DeleteFile` | src/storage/storage.service.ts:54-61 | A failed deletion is swallowed and leaves the object |
| `BookCache.ReadsAreBoundedStale` | src/books/books.service.ts:247-262 | Over every timed run of reads and writes with a positive lifetime: every body a read returns is the serialized row as an uncached lookup found it less than the lifetime earlier |
| `BookCache.FirstReadIsCurrent` | src/books/books.service.ts:294-307 | The first read after a delete, update, restore, review or admin edit answers as if there were no cache |
| `BookCache.EditIff` | src/books/books.service.ts:294-526 | Which calls write a row: the author of a visible book, for a request that names something and a genre that exists; an administrator or the deleter for a hidden one; administrators otherwise |
| `BookCache.EditWrites` | src/books/books.service.ts:294-526 | What each of them writes: the columns that are named, and no others |
| `BookCache.RowChangesOnlyByCalls` | src/books/books.service.ts:294-526 | A row changes only by a call that names it, deletes and updates come from its author, and its author never changes |
| `BookCache.BanIsSeenOnlyUncached` | src/books/books.service.ts:447-453 | After a ban the next public read is refused if and only if no copy of the book was live in the cache |
| `BookCache.BookLookup.FindBookById` | src/books/books.service.ts:247-262 | A live entry is returned whoever asks; an absent book is not cached |
| `BookCache.BookLookup.DeleteBook` | src/books/books.service.ts:296-307 | The author hides the row and drops its entry |
| `BookCache.BookLookup.UpdateBook` | src/books/books.service.ts:309-375 | The author rewrites the named columns and drops the entry; a request without any is refused |
| `BookCache.BookLookup.RestoreBook` | src/books/books.service.ts:466-494 | An administrator or the one who deleted it shows the row again and drops its entry |
| `BookCache.BookLookup.ReviewBook` | src/books/books.service.ts:500-512 | The decision is written and the entry dropped |
| `BookCache.BookLookup.AdminUpdateBook` | src/books/books.service.ts:514-526 | The named columns are written and the entry dropped |
| `BookCache.BookLookup.BanBook` | src/books/books.service.ts:447-453 | The row is hidden and the entry left alone |
| `R2.ReferenceRoundTrip` | src/storage/providers/r2/r2.service.ts:134-142 | Deleting a reference targets exactly the bucket and key it was made from, if and only if the object is public or the public base URL is no prefix of its key |
| `R2.BuiltKeysRoundTrip` | src/storage/providers/r2/r2.service.ts:63-90 | For every file type, name and extension exactly when the object is public or the base URL is no prefix of its key, as none is that parts from the prefix of books |
| `R2.SlugShape` | src/storage/providers/r2/r2.service.ts:46-54 | A slug has 1 to 60 characters of a-z, 0-9 and hyphen, no leading or doubled hyphen |
| `R2.SlugContent` | src/storage/providers/r2/r2.service.ts:46-54 | A slug keeps the letters and digits of the name in order, as far as they fit |
| `R2.SlugOfSlug` | src/storage/providers/r2/r2.service.ts:46-54 | Slugging a slug changes nothing if and only if it does not end in a hyphen, which cutting at 60 can leave |
| `R2.R2Service.StoreThenDelete` | src/storage/providers/r2/r2.service.ts:68-148 | Deleting what was just stored leaves both buckets as they were |
| `PriceFeed.RoundTripBound` | src/price-feed/price-feed.service.ts:79-88 | NGN to BOOKS and back differs from x by at most ((1+u)^3 - 1)*abs(x), u = 5e-20, for every positive rate, every product and quotient rounded half up to 20 significant digits |
| `PriceFeed.MonChainBound` | src/price-feed/price-feed.service.ts:97-112 | The three-product MON chain obeys the same relative bound against the exact product |
| `PriceFeed.MonChainKeepsOrder` | src/price-feed/price-feed.service.ts:97-112 | The chain is monotone in the amount, across powers of ten too |
| `PriceFeed.RoundIsFaithful` | src/price-feed/price-feed.service.ts:79-88 | Rounding half up to 20 significant digits has relative error at most u |
| `PriceFeed.RoundsHalfUp` | src/price-feed/price-feed.service.ts:79-88 | A positive number is rounded to the nearest number of twenty significant digits, ties upwards, and a negative one like its opposite |
| `PriceFeed.RoundIsMonotone` | src/price-feed/price-feed.service.ts:79-88 | and is monotone over all reals, also where the exponent changes |
| `CryptoDeposit.DecodeEncode` | src/payments/deposit/providers/crypto-deposit.provider.ts:75-80 | For every address below 2^160 and amount below 2^256, slicing and hex-parsing the two-word encoding gives back exactly that address and amount |
| `CryptoDeposit.EncodeDecode` | src/payments/deposit/providers/crypto-deposit.provider.ts:75-80 | Re-encoding what a zero-padded two-word string decodes to gives the string back, up to case |
| `CryptoDeposit.VerifyEncoded` | src/payments/deposit/providers/crypto-deposit.provider.ts:43-113 | For a receipt that carries such a log, exactly when and with what sender and amount verification succeeds |
| `CryptoDeposit.VerifiedIff` | src/payments/deposit/providers/crypto-deposit.provider.ts:43-113 | A payment is verified, with this sender and amount, if and only if the receipt is mined and not reverted and its first log of the contract decodes to them, with an amount other than zero, 10^18 units a coin, and both agree with the expected ones where these are given |
| `CryptoDeposit.DecodesIff` | src/payments/deposit/providers/crypto-deposit.provider.ts:75-80 | Which log data decode: forty hexadecimal digits at 26, in one case or with a correct checksum, and one or more from 66 on |
| `CryptoDeposit.VerifiedIsOnChain` | src/payments/deposit/providers/crypto-deposit.provider.ts:43-113 | A payment is verified only from a mined, unreverted receipt with a log of the contract that decodes to what is reported |

## Left out

- DecimalText.GuardIsNumeric: negative numbers are not covered; in `DebitGuard` a negative balance counts as below every amount.
- LedgerRuns.StatusAbsorption: takes each handler as one step; `LateWrites` has the last PENDING write of a Paystack withdrawal as a step of its own, but not the FAILED write after a provider's error.
- Deposits.VerifyDeposit: one step, although the credit and the update are not in one database transaction there; a crash between the two, and two verifications of one hash at once, are not modelled.
- Orders.CreateOrderCheckout: takes the last status update as part of the transaction, although it is made outside it, where it may not find the uncommitted row, throw, and so roll the checkout back; wallets are looked up by whatever identifier is passed, which is the user's at checkout.
- Delivery.CreditedAtMostOnce: a database transaction that is still in flight when its process dies is taken as either done or not done before the next process starts; transfers, crypto payloads and all other requests are single steps, and the late PENDING write of a Paystack withdrawal is no event of these runs: after it a second transfer.success debits again.
- WebhookQueue.EachJobOnce: a reply and the step it resumes are one event; what the server did in between is earlier events.
- RevocationEpochs.PassedChecksAreUnrevoked: the store never evicts a counter, and a random token is never the name of an epoch.
- RefreshRotation.AcceptedOnce: calls are atomic; two refreshes of one token at once are not modelled.
- PinLimiter.VerifyUserPin: attempts are atomic; the hash comparison is a parameter.
- BookCache.ReadsAreBoundedStale: calls are atomic, so a read that fills the cache across an edit is not modelled; needs a positive lifetime, since zero stores without expiry.
- R2.SlugShape: starts from lower-cased text; case folding is not modelled. The extension is a parameter.
- CryptoDeposit.VerifyEncoded: the checksum of mixed-case addresses and the parsing of decimals to floating-point numbers are parameters; white space around parsed numbers is not modelled.
- PriceFeed.RoundTripBound: rates are any reals; how the cached rate is fetched and parsed is not modelled.
- Signatures, password and PIN hashes, token signing and the identity provider: predicates or parameters.
- The email change code, which is a further copy of the resend throttle.
- The Dropbox storage provider, whose keys are not fresh.
- Cached book lists, bookmarks, statistics, profiles, genres and role changes: single-branch facts.
- Controllers, request validation, logging and the HTTP, RPC, mail and image clients.
- Column limits of the database.
