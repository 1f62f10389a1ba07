# A verified model of the payment switch

The switch moves money between accounts for several channels (ATM, mobile, POS,
ECOM, QR, reversals).  Requests run concurrently; a hand-written account lock
with two priorities keeps them apart, each handler works in one database
transaction, and a double-entry ledger, spending limits, refunds, an
idempotency gate, a session pool, a fraud cache and a rate limiter stand around
that core.  The project models these parts in Dafny and proves what holds over
every run.

Run `dafny verify dfyconfig.toml` in this directory to check everything.

## How the parts fit

- `AccountOrder`, `LockTable`, `LockProtocol`, `LockProgress`: the lock table as a
  class, then any number of threads that take locks in account order, step by
  step. The invariant of one account, mutual exclusion, the absence of wait
  cycles, and the draining of every queue.
- `Fx`, `Ledger`: conversion in exact decimals, and the books.
- `Bank`, `Handlers`: the tables, what each handler sees, decides and writes
  (`Bank.Execute`, `Bank.Outcome`), and the handlers as imperative methods proved
  equal to it.
- `BankDecisions`: each answer of each handler, and the tables it leaves, told by
  the fields of the rows and the request.
- `BankSums`, `BankInvariants`, `BankRefunds`, `BankLimits`, `BankLedger`,
  `BankRuns`: what every request keeps, and so every sequence of requests.
- `Engine`, `EngineFrame`, `EngineSafety`, `EnginePriority`, `EngineProgress`,
  `EngineAlone`: the handlers as threads under the lock protocol, with every read,
  the write and the commit a step of its own. Every interleaving ends in the
  tables that the committed requests give when run one at a time, so everything
  proved in `BankRuns` holds of it; credits go before debits; it never gets stuck
  and drains; and serial runs of approved requests are among its runs. Handlers
  with account locks rely on those and, in a POS or ECOM refund, on the row lock
  of the purchase; a POS refund that found no account to lock relies on the row
  locks of `SELECT ... FOR UPDATE` alone. A request that gives up rolls back
  before it gives its locks back; where an exception in `mobile.cpp` makes it the
  other way round, the tables are the same.
- `Idempotency`, `RateLimiter`, `FalconCache`, `FalconRisk`, `Json`, `PinMixing`,
  `Pin`, `Luhn`, `Decimal`, `DbConfig`, `SessionPool`: the parts around the core,
  one file each. `Options` and `MapSum` are helpers.

Amounts are whole cents and rates whole millionths, as the columns
`decimal(12,2)` and `decimal(10,6)` hold them. Words of the PIN code are numbers
below 2^64. Times are seconds, in the fraud cache nanoseconds.

## Where the code and its words disagree

The model follows the code.

- The repository's README gives POS refunds the states N, PR and RF with several
  refunds to a purchase. `pos.cpp:376-382` allows one refund, whole or part
  (`BankRefunds.OnePosRefund`); only ECOM refunds add up.
- Handlers that credit check no sign: a negative deposit, transfer, refund or
  reversal fee can overdraw an account (`BankInvariants.NoDebtKeptIff`,
  `NegativeDepositOverdraws`).
- `atm.cpp:452-454` calls the reversal idempotent. It is applied as often as it
  comes (`BankInvariants.ReversalRepeats`).
- Every posting is said to balance. It does iff a merchant is named where
  something is left for one (`Ledger.PurchaseBalancesIff`,
  `BankLedger.TrialBalanceKeptIff`).
- A transfer within one account creates money: the credit is computed from the
  balance before the debit and overwrites it. So does one between two spellings
  of an account, which the handler tells apart by their characters and the
  database, without case and accents, does not
  (`BankInvariants.TransferConserves`, `TransferBetweenSpellings`).
- The lock's guard has a second half for debits behind credits; it never decides
  (`LockProgress.GuardIsLock`).
- The idempotency gate opens when the database fails it: if no session is free
  in time, or the insert or the lookup fails, both routes go on to the handler
  with nothing registered. The handler then runs once more for each such request
  (`IdempotencyProtocol.RunsAreBounded`, `HandlerRunsTwice`), at most once without
  them (`HandlerRunsOnce`).
- A stored answer is overwritten by a request that bypasses the gate: one that it
  opened for, on either route, or one that `/transaction/initiate` answers outside
  it, over the rate limit, with a malformed body or after an exception. Without
  such requests stored answers are final on both routes (`StoredAnswerIsFinal`,
  `EarlyExitRewritesIff`, `OpenRewritesIff`, `StoredAnswerIsLost`).
- A key is left in progress for good by a request that throws on a route of
  `registerJsonPost`, or whose update fails, on either route; by nothing else
  (`StuckIffLost`, `StuckForGood`).
- `MAX_CACHE_SIZE` bounds neither container of the fraud cache. Nodes that lose
  their entry stay in the list, which grows without bound under one key
  (`FalconCache.StaleNodesPileUp`), and when such a node is evicted no entry goes,
  so the map passes the bound too (`MapPassesBound`). They are one to one, and so
  within it, exactly as long as no node loses its entry, and else exceed it by no
  more than the number of nodes that did (`TidyIffNothingOrphaned`,
  `BoundWithOrphans`).

## Model

| member | source | states |
|---|---|---|
| LockTable.AccountLockManager.Acquire | include/AccountLockManager.h:58-90 | the caller is counted, then owns a free lock or joins the queue; nothing else in the table changes |
| LockTable.AccountLockManager.Release | include/AccountLockManager.h:92-128 | a waiter of the best priority takes the lock without its being free in between; with no waiter the lock is free and an entry that counts nobody is erased |
| LockTable.Top | include/AccountLockManager.h:21-26 | the top of the queue is some waiter that no other outranks |
| LockProtocol.InvStep | include/AccountLockManager.h:58-128 | every step of any thread keeps, for each account: an entry iff somebody owns it, one owner counting a ready waiter, locked iff owned, counters equal to owner and waiters of each kind, queue equal to the waiting threads |
| LockProtocol.InvRun | include/AccountLockManager.h:58-128 | the same over every run of any number of threads and accounts |
| LockProtocol.VacatedEntry | include/AccountLockManager.h:120-126 | a release that finds no waiter erases the entry: the table never keeps one that is free |
| LockProgress.MutualExclusion | include/AccountLockManager.h:82-89 | in every reachable state two owners of an account are one thread |
| LockProgress.EntryMeansOwned | include/AccountLockManager.h:92-128 | an entry exists iff somebody owns the account, it is locked iff it exists, and nobody waits for an account without an entry |
| LockProgress.CountersCount | include/AccountLockManager.h:71-75 | `activeCredits` and `activeDebits` are the owner and the waiters of each kind |
| LockProgress.GuardIsLock | include/AccountLockManager.h:79-80 | an active credit means a locked account, so `acquire` waits iff the account is locked |
| LockProgress.CreditsFirst | include/AccountLockManager.h:104-119 | no step gives the lock to a debit while a credit waits for it |
| LockProgress.NoDeadlockCycle | mobile.cpp:168-183 | the wait-for graph has no cycle: a path of threads that wait for each other's locks never returns to its start |
| LockProgress.SomeOwnerRuns | mobile.cpp:168-183 | whoever waits waits, through owners, for an owner that does not wait |
| LockProgress.NeverStuck | mobile.cpp:168-183 | while a thread is left some thread can take a step |
| LockProgress.StepSpendsLoad | include/AccountLockManager.h:58-128 | every step but an arrival lowers a measure of the steps still to come |
| LockProgress.Drains | include/AccountLockManager.h:92-128 | without arrivals every run is bounded by that measure, and where it can go no further nobody waits and no lock is held |
| AccountOrder.LessIsLexicographic | mobile.cpp:170-179 | one account number is before another iff they agree up to some place where the first ends or has the smaller character |
| EnginePriority.LegsByRequest | mobile.cpp:168-183 | in every reachable state who counts as a debit at an account's lock is a withdrawal, a purchase or the sending side of a transfer on it, who counts as a credit is a deposit, a refund, a reversal or the receiving side; and a handler at work counts so at each account that it debits or credits |
| EnginePriority.PosRefundLocksItsPurchase | pos.cpp:285-305 | a POS refund locks the account of the purchase that it finds when it comes, as a credit, and none only if it finds none or one without an account |
| EnginePriority.CreditsBeforeDebits | include/AccountLockManager.h:104-119 | no step gives an account to a withdrawal, a purchase or the sending side of a transfer while a deposit, a refund, a reversal or the receiving side of a transfer waits for it |
| EngineSafety.EveryRunIsSerial | mobile.cpp:185-288 | no lost update: after every interleaving of reads, writes, commits and rollbacks, of requests with any signs and of a POS refund that locks no account, the tables are those of the committed requests run one at a time in commit order, each approved on what it would read then and on a clock its lock allows |
| EngineSafety.EveryRunAddsUp | atm.cpp:202-240 | so at every moment, whatever the requests, balances are opening plus records and ledger balances are their entries |
| EngineSafety.EveryRunIsHealthy | atm.cpp:202-240 | and when the committed requests have the signs that no handler checks, balances are not negative, refunds hold, and no account withdraws more than 5,000.00 or pays in or sends more than 10,000.00 in a day, or sends more than 2,000.00 in an hour |
| EngineSafety.EveryRunBalancesBooks | accounting.cpp:22-88 | the trial balance is 0 after every interleaving in which each committed request is signed so and balances |
| EngineSafety.EveryRunTracksLedger | pos.cpp:209-231 | over every interleaving an account that is nobody's merchant moves as its ledger account does, less purchase fees, plus the channels that do not post |
| EngineSafety.StepSound | reversal.cpp:340-380 | every step keeps the invariant that ties locks, reads, written verdicts and tables |
| EngineSafety.OnlyCommitsWrite | reversal.cpp:340-387 | a rollback, a read, a write before the commit and a lock step leave the tables as they were; a commit adds one record |
| EngineSafety.WrittenIsVerdict | ecom.cpp:252-316 | what a transaction is about to commit is what its handler would decide alone on the tables as they now are |
| EngineSafety.WritesAreHeld | pos.cpp:395-426 | a transaction about to commit holds the rows of all balances that it writes |
| EngineSafety.OneRecordEach | mobile.cpp:275-288 | committed requests and new records are equal in number |
| EngineFrame.ReadsKept | pos.cpp:301-453 | what a handler has read stays true under a commit that writes no balance it holds, meters no row of its account, marks no purchase it has found and refunds none it has checked |
| EngineFrame.ClearOfLocked | mobile.cpp:168-183 | the commit of a handler with account locks is such a commit for every handler with other locks |
| EngineFrame.ClearOfUnlocked | pos.cpp:287-310 | so is one by or beside a POS refund that found no account to lock, by the rows that both hold |
| EngineFrame.VerdictConfined | ecom.cpp:284-298 | a handler writes balances of its own accounts only, marks only the purchase it found, meters only its account, and refunds only its own QR purchase |
| EngineAlone.LoneRequestCommits | mobile.cpp:168-288 | a request that would be approved alone can run, step by step, from an idle engine to its commit and out again, and leaves the tables of `Execute` |
| EngineAlone.SerialRunIsEngineRun | mobile.cpp:168-288 | every sequence of such requests at times that do not go back is a run of the engine, which ends idle with their log and their tables |
| EngineProgress.NeverStuck | ecom.cpp:249-257 | account locks and row locks together never leave every handler waiting: some handler can go on, and gives up only after reading all it needs |
| EngineProgress.EngineDrains | include/AccountLockManager.h:92-128 | without new requests every run of the engine is bounded, and where it can go no further no request is left and no account is locked |
| Handlers.BankingDb.GetAccountBalance | DatabaseQueries.cpp:40-50 | the balance, or none for an unknown account |
| Handlers.BankingDb.HandleWithdrawal | atm.cpp:187-255 | tables and reply are those of `Execute` and `Outcome`: account, daily limit with fee, funds, in this order |
| Handlers.BankingDb.HandleDeposit | atm.cpp:257-308 | the same, the limit before the account |
| Handlers.BankingDb.GetTransferBalances | mobile.cpp:190-233 | both balances, read in account order, or the code of the first account that is missing |
| Handlers.BankingDb.ProcessMobileTransfer | mobile.cpp:158-288 | single, hourly and daily limit, funds, then two absolute writes and one record |
| Handlers.BankingDb.PurchasePos | pos.cpp:68-253 | amount checks, conversion or its failure, debit, row with flag N, ledger posting |
| Handlers.BankingDb.RefundPos | pos.cpp:264-475 | the five guards in order, net credit, mark, refund row, ledger posting |
| Handlers.BankingDb.PurchaseEcom | ecom.cpp:131-237 | as for POS, the account before the conversion and the funds |
| Handlers.BankingDb.RefundEcom | ecom.cpp:143-327 | account, conversion or its failure, missing reference, flag and sum checks, credit, cumulative mark, refund row, ledger posting |
| Handlers.BankingDb.PurchaseQr | qrcode.cpp:93-198 | debit and row |
| Handlers.BankingDb.RefundQr | qrcode.cpp:200-291 | account match, one refund, amount bound, credit and row |
| Handlers.BankingDb.ProcessReversal | reversal.cpp:266-429 | the four field checks, the ping, the account; amount and fee back and a record, or `Queued` if the drop file could be written and a failure code if not, with no effect |
| Bank.Find | DatabaseQueries.cpp:164-195 | a lookup gives the earliest row that matches, and none iff no row does |
| BankDecisions.PosLookup | pos.cpp:287-310 | a POS lookup finds a row iff it is the first row of the POS table, purchase or refund, with that `transaction_id`, and none iff there is none |
| BankDecisions.EcomLookup | DatabaseQueries.cpp:164-179 | an ECOM lookup finds the first purchase with that client id |
| BankDecisions.QrLookup | DatabaseQueries.cpp:181-195 | a QR lookup finds the first purchase with that client id |
| BankDecisions.RefundIsOfNamedPurchase | ecom.cpp:247-313 | the row that an approved refund marks or refers to has exactly the id that the request names, and a POS refund pays the account of that row |
| Bank.ChargeIsConversion | currency_converter.cpp:9-37 | a request in another currency is charged what the converter makes of it, and has no quote iff the converter fails |
| BankSums.MetersAddUp | DatabaseQueries.cpp:71-93 | the sums the limits read are, row by row, amounts and fees withdrawn, amounts paid in and amounts sent by the account in the window |
| BankDecisions.WithdrawalDecided | atm.cpp:187-255 | each answer of a withdrawal iff its guard is the first to speak, at 5,000.00 a day, and the tables after an approval |
| BankDecisions.DepositDecided | atm.cpp:257-308 | the same for deposits, at 10,000.00 a day |
| BankDecisions.TransferDecided | mobile.cpp:158-266 | the same for the single, hourly and daily limit and the funds of a transfer |
| BankDecisions.MissingAccountIsNamed | mobile.cpp:190-233 | a missing account is named, of two the one with the smaller number |
| BankDecisions.TransferLeaves | mobile.cpp:268-288 | the tables after an approved transfer |
| BankDecisions.SecondTransferRefused | mobile.cpp:235-244 | 1,500.00 sent at ten is approved, the same again five minutes later is over the hourly limit |
| BankDecisions.PosPurchaseDecided | pos.cpp:87-253 | each answer of a POS purchase iff its guard is the first to speak, and the tables after an approval |
| BankDecisions.PosRefundDecided | pos.cpp:264-405 | each answer of a POS refund, by the request and the fields of the purchase that it names |
| BankDecisions.PosRefundLeaves | pos.cpp:405-455 | the account gets the amount less the fee of the purchase, the purchase is marked, a refund row is added and posted |
| BankDecisions.EcomPurchaseDecided | ecom.cpp:133-237 | each answer of an ECOM purchase, and the tables after an approval |
| BankDecisions.EcomRefundDecided | ecom.cpp:143-289 | each answer of an ECOM refund, by the request and the fields of the purchase that it names |
| BankDecisions.EcomRefundLeaves | ecom.cpp:291-316 | the account gets the amount, the purchase is marked with all that was given back, a refund row is added and posted |
| BankDecisions.QrPurchaseDecided | qrcode.cpp:93-198 | each answer of a QR purchase, and the tables after an approval |
| BankDecisions.QrRefundDecided | qrcode.cpp:200-291 | each answer of a QR refund, by the purchase that it names and the refund rows there are, and the tables after an approval |
| BankDecisions.ReversalDecided | reversal.cpp:266-429 | each answer of a reversal, and the tables after an approval |
| BankInvariants.WritesMatchRecord | mobile.cpp:268-288 | each handler writes what it read plus the signed effect of the record it inserts, on those accounts and no others |
| BankInvariants.SuccessIsApproval | atm.cpp:202-254 | a handler reports success iff it commits |
| BankInvariants.ChangesIffSuccess | reversal.cpp:340-387 | a reply of success means one record more, and any other reply that no table has changed |
| BankInvariants.CommitMovesBalances | pos.cpp:209-213 | a commit moves every balance by the effect of its record and opens no account |
| BankInvariants.BalancesAddUpKept | atm.cpp:222-240 | each balance is its opening plus the signed effects of its records: withdrawal and purchase -(amount+fee), deposit, ECOM and QR refund +amount, POS refund +(amount - original fee), reversal +(amount+fee), transfer legs |
| BankInvariants.NoDebtKeptIff | ecom.cpp:199-208 | whatever the signs, an approved request leaves no balance negative iff what it credits does not take the credited balance below zero |
| BankInvariants.NoDebtKept | ecom.cpp:199-208 | so none with the signs of `WellSigned` makes a balance negative |
| BankInvariants.NegativeDepositOverdraws | atm.cpp:257-308 | a deposit of -100 on a balance of 50 is approved and leaves -50 |
| BankInvariants.TransferConserves | mobile.cpp:168-270 | a transfer changes the sum of balances by its fee only, iff its two numbers find different accounts, however they are spelled, or it moves nothing; else it adds the amount |
| BankInvariants.TransferToItselfIsApproved | mobile.cpp:220-270 | such a transfer is approved: 100 sent from an account to itself turn 500 into 600 |
| BankInvariants.TransferBetweenSpellings | mobile.cpp:168-270 | so is one between two spellings of an account: it takes two locks and turns 500 into 600 |
| BankInvariants.ReversalRepeats | atm.cpp:448-454 | a reversal run twice equals one run iff a field is missing, the database does not answer, or the account does not exist; else it credits twice |
| BankInvariants.ReversalTwice | reversal.cpp:340-380 | one reversal of 100 and a fee of 1, sent twice, is approved twice and credits 202 |
| BankRefunds.EcomSafeKept | ecom.cpp:252-316 | refunded part = sum of the refund rows, at most the amount, flag N iff 0, PR iff between, RF iff equal |
| BankRuns.FullyRefundedIsFinal | ecom.cpp:267-271 | over every run a fully refunded purchase stays as it is and gets no refund row more |
| BankRefunds.PosSafeKept | pos.cpp:376-453 | at most one refund row per purchase, within its amount, and the mark and flag tell it |
| BankRefunds.OnePosRefund | pos.cpp:376-382 | once refunded, in part or whole, a purchase is never refunded again |
| BankRefunds.QrSafeKept | qrcode.cpp:213-277 | at most one refund row per purchase, within its amount |
| BankRefunds.PosSafeMeans | pos.cpp:376-453 | so, on the rows: two refund rows of a POS purchase are one, it is for what the purchase is marked with, and the flag tells whole from part |
| BankRefunds.EcomSafeMeans | ecom.cpp:252-316 | the first purchase of a client id is marked with the sum of the refund rows that name the id, no more than its amount |
| BankRefunds.QrSafeMeans | qrcode.cpp:213-277 | two refund rows of a QR purchase are one, and it is within the amount |
| BankLimits.WithinLimitsKept | mobile.cpp:235-257 | no account withdraws more than 5,000.00, pays in more than 10,000.00 or sends more than 10,000.00 on any day, or sends more than 2,000.00 in any hour, wherever it starts |
| BankLimits.DayHolds | DatabaseQueries.cpp:71-81 | a row checked on one day and stamped on a later one keeps the later day within the limit |
| BankLimits.HourHolds | DatabaseQueries.cpp:83-93 | a row that passed the sliding check keeps every hour it falls into within the limit |
| BankLedger.BooksAgreeKept | DatabaseQueries.cpp:221-231 | every ledger balance stays credits minus debits of its entries |
| BankLedger.TrialBalanceKeptIff | accounting.cpp:42-62 | an approved request leaves the trial balance alone iff it names a merchant for what is left over, or nothing is |
| BankLedger.PurchaseWithoutMerchant | accounting.cpp:42-50 | a purchase of 100 with a fee of 1 and no merchant is approved and takes 99 off the trial balance |
| BankLedger.MerchantGetsConversion | accounting.cpp:42-50 | a merchant paid in foreign money gets the amount times the rate, rounded once, less the fee |
| BankLedger.LedgerTracksKept | accounting.cpp:38-40 | a customer's account and ledger move together but for purchase fees and the channels that do not post |
| BankLedger.FullPosRefund | pos.cpp:411-451 | a POS purchase and its full refund: the refund is approved, the account is down twice the fee, the customer's ledger once, the trial balance is where it was |
| BankRuns.HealthyRun | atm.cpp:187-308 | all per-request invariants over every sequence of requests with those signs |
| BankRuns.TrialBalanceOverRun | accounting.cpp:22-88 | the trial balance after a run is the opening plus the residual of each approved request |
| BankRuns.TrialBalanceStays | accounting.cpp:22-88 | it stays where it was when every request is signed so and balances |
| BankRuns.LedgerTracksRun | pos.cpp:209-231 | the drift between account and ledger over every run |
| Ledger.GeneralLedger.GetOrCreateLedgerAccount | DatabaseQueries.cpp:205-219 | a missing account is opened at 0, an existing one is left alone |
| Ledger.GeneralLedger.PostLedgerEntry | DatabaseQueries.cpp:221-231 | one entry, and the change on the running balance of its account |
| Ledger.GeneralLedger.ProcessPurchaseLedger | accounting.cpp:22-63 | the books become `PurchaseBooks` of what they were |
| Ledger.GeneralLedger.ProcessRefundLedger | accounting.cpp:66-88 | the books become `RefundBooks` of what they were |
| Ledger.PurchasePosts | accounting.cpp:38-62 | a purchase moves each account by its legs, whoever coincides with whom, and the trial balance by the exact residual |
| Ledger.RefundPosts | accounting.cpp:76-87 | a refund moves customer and merchant against each other; without a merchant the trial balance moves by the amount |
| Ledger.PurchaseEntries | accounting.cpp:38-62 | the entries of a purchase, line by line with their transaction, sides and amounts |
| Ledger.PurchaseOpens | accounting.cpp:28-46 | a purchase opens the customer, the two revenue accounts and a merchant who is paid, and no other account |
| Ledger.RefundEntries | accounting.cpp:66-88 | the entries and the accounts of a refund |
| Ledger.PurchaseBalancesIff | accounting.cpp:43-50 | with fee and markup not negative the residual is 0 iff the merchant leg is posted or is zero |
| Fx.RoundIsNearest | currency_converter.cpp:33-34 | rounding is to the nearest cent, halves away from zero |
| Fx.MarkupIsOnTop | currency_converter.cpp:29-34 | charge minus markup is amount times rate rounded once, exactly |
| Fx.WithinOneCent | currency_converter.cpp:29-34 | the charge is within one cent of 1.02 times amount times rate |
| Fx.MarkupIsTwoPercent | currency_converter.cpp:30-33 | the markup is two percent of amount times rate, to the nearest cent |
| Fx.ConvertMonotone | currency_converter.cpp:29-34 | a larger amount is never charged less nor marked up less |
| Fx.MarkupWithinCharge | currency_converter.cpp:29-34 | the markup is between zero and the charge |
| Fx.MarkupIsForForeignMoney | currency_converter.cpp:9-37 | AUD passes unchanged, a listed currency at its rate with the markup on top, and an error iff the currency is neither |
| Idempotency.Gate.CheckOrRegister | idempotency.cpp:8-70 | a new key is registered and proceeds; a known one is a conflict while in progress and a replay of its record after; a failing session, insert, lookup or parse lets the request through and registers nothing |
| Idempotency.Gate.Update | idempotency.cpp:72-85 | the record takes code, body and the status that the code implies; no row, no change; a failing statement is swallowed and a missing session raises, both without a change |
| Idempotency.SoundGate | idempotency.cpp:12-61 | with no fault a new key is registered, a key in progress is a conflict, and any other is answered with its stored code and body and leaves the table alone |
| Idempotency.GateGoesOnIff | idempotency.cpp:8-70 | a request goes on iff its key is new or one of the named faults lets it, and a replay is always of what is stored |
| Idempotency.StoredIsReplayed | idempotency.cpp:72-85 | what is stored for a key is what the gate answers from then on, completed iff the code is from 200 to 299, and no other key is touched |
| IdempotencyProtocol.GateIsSteps | idempotency.cpp:8-70 | the gate of one request, whatever fails in it, is a run of the protocol's steps, and that run opens the gate iff one of the named faults does |
| IdempotencyProtocol.RunsAreBounded | parser&router.cpp:459-511 | over all interleavings on both routes the handler runs for a key at most once, plus once for each request with the key that a fault lets through |
| IdempotencyProtocol.HandlerRunsOnce | parser&router.cpp:801-877 | so at most once where no fault lets one through |
| IdempotencyProtocol.OpenRunsOnceMore | parser&router.cpp:478-494 | and in any reachable state a request that a fault lets through can run the handler once more |
| IdempotencyProtocol.HandlerRunsTwice | parser&router.cpp:478-494 | a run from the start on either route: the second request finds no session, its handler runs too and its answer replaces the first |
| IdempotencyProtocol.RowNeverVanishes | idempotency.cpp:28-39 | the lookup after a duplicate key finds the row: that branch is dead |
| IdempotencyProtocol.StoredAnswerIsFinal | parser&router.cpp:459-529 | on both routes: while no request with the key bypasses the gate, let through by a fault or answered outside it, a stored answer never changes and every later request is given it |
| IdempotencyProtocol.JsonPostAnswerIsFinal | parser&router.cpp:459-529 | for keys that only `registerJsonPost` routes see, it is enough that no fault lets a request with the key through |
| IdempotencyProtocol.StoredIsReplied | parser&router.cpp:511-531 | what is stored is what the request that ran the handler replied |
| IdempotencyProtocol.StuckIffLost | idempotency.cpp:72-85 | while no request with the key bypasses the gate, the key is in progress with nobody to answer it iff a request for it has thrown or failed to store |
| IdempotencyProtocol.StuckMeansLost | parser&router.cpp:550-574 | and over all runs nothing else leaves it so |
| IdempotencyProtocol.ThrowingRun | parser&router.cpp:550-574 | a run from the start in which a handler throws and its key is stuck |
| IdempotencyProtocol.FailedStoreRun | idempotency.cpp:76-84 | a run from the start on either route in which the answer goes out, the update fails and the key is stuck |
| IdempotencyProtocol.StuckForGood | parser&router.cpp:478-493 | every later request with such a key is refused with a conflict |
| IdempotencyProtocol.EarlyExitRewritesIff | parser&router.cpp:742-799 | in any reachable state with a stored answer, an answer that `/transaction/initiate` gives outside the gate leaves the record as it was iff it is the same |
| IdempotencyProtocol.OpenRewritesIff | idempotency.cpp:20-24 | so does the answer of a request that a fault lets through, on either route |
| IdempotencyProtocol.StoredAnswerIsLost | parser&router.cpp:762-771 | a run from the start: a payment is answered and stored, and a retry over the rate limit replaces the answer |
| RateLimiter.IpRateLimiter.RateLimitOK | parser&router.cpp:108-135 | verdict and buckets are those of `Check` |
| RateLimiter.IpRateLimiter.EvictStaleBucketsLocked | parser&router.cpp:98-106 | exactly the buckets older than two windows go |
| RateLimiter.SweepIsInvisible | parser&router.cpp:108-135 | on a clock that never goes back every verdict is that of a limiter that never sweeps |
| RateLimiter.SweptBucketsAreRecent | parser&router.cpp:98-106 | right after a sweep the limiter holds buckets only for addresses that asked within the last two windows |
| RateLimiter.NeverMoreThanTwoWindows | parser&router.cpp:121-134 | an address gets at most 200 requests through in its window and at most 400 in any minute |
| RateLimiter.RefusedMeansFull | parser&router.cpp:121-134 | a request is refused only if its address has had 200 through within the last minute |
| RateLimiter.SweepsEveryTenThousand | parser&router.cpp:108-119 | a request sweeps iff it is the ten-thousandth, counted on |
| FalconCache.SameSecondCache.Look | falcon.cpp:299-320 | a recent entry hits and moves to the front under LRU; a stale one leaves the map and keeps its node |
| FalconCache.SameSecondCache.Remember | falcon.cpp:331-344 | a node in front and an entry to it; above the bound the last node goes and the entry with its key |
| FalconCache.RunIsValid | falcon.cpp:292-352 | in every run each entry points to a live node with its key, each node stands once in the list and comes from a confirmed call, and entries are no more than nodes |
| FalconCache.HitMeansConfirmed | falcon.cpp:303-314 | a hit means that a call for the same key at most 1000 ms before found a row in the database |
| FalconCache.ConfirmedThenHit | falcon.cpp:331-335 | a call within the second after a confirmed one hits |
| FalconCache.OldestIsLast | falcon.cpp:309-342 | after every run the list stands in the order of the last touch, so what is evicted is the node that was longest ago made or, under LRU, hit |
| FalconCache.TidyKeptIff | falcon.cpp:303-344 | from a cache whose nodes all have their entries, a step keeps it so iff it is neither a look that finds a stale entry nor a second confirmation of a key; list and map are then one to one and within the bound |
| FalconCache.TidyIffNothingOrphaned | falcon.cpp:292-352 | over a run list and map stay one to one, and so within the bound, iff no step is of those two kinds |
| FalconCache.BoundWithOrphans | falcon.cpp:331-344 | over every run list and map are within the bound plus the number of such steps |
| FalconCache.BoundPassedIff | falcon.cpp:336-342 | a confirmation takes the map past its bound iff the key is new, the map is full and the key of the last node has no entry |
| FalconCache.MapPassesBound | falcon.cpp:299-342 | a run, in which every confirmation follows a look that missed, after which the map holds 10001 entries |
| FalconCache.StaleNodesPileUp | falcon.cpp:316-319 | n well-spaced calls for one key leave n nodes and one entry |
| FalconRisk.ScanIsSound | falcon.cpp:206-255 | whatever the budget, a match means that a marker is there |
| FalconRisk.ScanFindsAll | falcon.cpp:206-255 | on depth at most 4 and fewer than 4096 characters the scan matches iff an unbounded scan would |
| FalconRisk.ContainsAnyIff | falcon.cpp:190-228 | a text has a marker iff from some place on it reads as one, in capitals or not |
| FalconRisk.FieldIsMarkedIff | falcon.cpp:240-253 | a field counts by its key and its value, and not at all if the key starts with an underscore |
| FalconRisk.ScanIsCut | falcon.cpp:206-228 | of a text longer than the budget only the beginning is looked at, and below depth 4 nothing is |
| FalconRisk.RiskScore.AddRisk | falcon.cpp:72-81 | the score is the capped sum of all points and each signal is listed once, in order of appearance |
| FalconRisk.ScoreIsCappedSum | falcon.cpp:77-77 | capping at every step is capping once; a transaction is declined iff the points reach 85 |
| FalconRisk.ScoreOfAnyOrder | falcon.cpp:500-580 | the same signals score the same in whatever order they are found |
| FalconRisk.SignalsOnce | falcon.cpp:78-80 | the list of signals has every signal found and none twice |
| JsonLog.LogHidesExactlySecrets | parser&router.cpp:216-242 | two bodies give one log line iff they differ under sensitive keys only |
| JsonLog.PlainIsLogged | parser&router.cpp:216-242 | a body without sensitive fields is logged as it is |
| JsonLog.SecretsAreMasked | parser&router.cpp:216-242 | every sensitive field at any depth is logged as four stars |
| PinMixing.RotlInverse | pin.cpp:153-155 | for 0 < r < 64 rotating on by 64 - r gives the word back |
| PinMixing.XorBits | pin.cpp:158-162 | a bit of `a ^ b` is set iff it is set in exactly one of the two |
| PinMixing.RotlIs | pin.cpp:153-155 | rotation takes the upper r bits to the bottom and moves the others up |
| PinMixing.ShiftedIs | pin.cpp:158-158 | the upper 31 bits stay and are mixed into the lower 33 |
| PinMixing.ShiftedInverse | pin.cpp:158-158 | the 33-bit xorshift undoes itself |
| PinMixing.AvalancheInverse | pin.cpp:157-164 | `avalanche` is a bijection on 64-bit words, with the inverse given |
| PinMixing.AvalancheBetween | pin.cpp:157-164 | between its shifts `avalanche` multiplies by its two constants in their order |
| Pin.Compress | pin.cpp:204-219 | the loop computes the fold of the mixing step over the bytes |
| Pin.CompressedMore | pin.cpp:208-214 | the empty input gives 0, and one more byte goes to its place in the word, which is turned by 13 bits and mixed |
| Pin.OneByteNeverCollides | pin.cpp:204-219 | inputs of one length that differ in exactly one byte compress to different words |
| Pin.Derive | pin.cpp:221-240 | six blocks, each from everything before it |
| Pin.BlocksFromHistory | pin.cpp:221-240 | each of the six blocks is the compressed HMAC of the blocks before it in decimal, the latest first, and the card number |
| Pin.GeneratePIN | pin.cpp:245-288 | errors for a PAN that is not 16 long and for length below 4, else `Generated` |
| Pin.VerifyPIN | pin.cpp:293-303 | the verdict is `Verified` |
| Pin.PinFollowsStates | pin.cpp:268-281 | the states follow one from another as in the loop, place i is the pool's character for state i + 1, and the first four places are set from the last state |
| Pin.PrefixIsStable | pin.cpp:270-281 | PINs of two lengths agree from place 4 to the end of the shorter |
| Pin.Categories | pin.cpp:264-281 | every character is from the pool; the first four are upper case, lower case, digit and mark |
| Pin.ExactlyOneAccepted | pin.cpp:293-303 | of each length from 4 exactly one string is accepted; shorter ones are errors |
| Pin.SeedsStayApart | pin.cpp:270-273 | different seeds are in different states after every character |
| Pin.EachBlockDecidesSeed | pin.cpp:258-262 | another block in one place gives another seed |
| Pin.CardsStayApart | pin.cpp:258-273 | cards whose blocks differ in exactly one place are in different states after every character |
| Luhn.LuhnDigit | issue.cpp:78-94 | the loop from the right computes the check digit |
| Luhn.GeneratePAN | issue.cpp:96-106 | bin, nine digits and a check digit that makes the number valid |
| Luhn.WeightIsDigitSum | issue.cpp:84-89 | a doubled digit counts for the digits of its double |
| Luhn.ValidIff | issue.cpp:78-94 | a number is valid iff its digits, with the digits of the doubles in every second place, add up to a multiple of ten |
| Luhn.SampleIsValid | issue.cpp:78-94 | 7992739871 takes the check digit 3 |
| Luhn.UniqueCheckDigit | issue.cpp:78-94 | exactly one last digit makes a number valid |
| Luhn.OneWrongDigit | issue.cpp:78-94 | any single wrong digit is noticed |
| Luhn.SwappedNeighbours | issue.cpp:78-94 | a swap of neighbours is missed iff they are equal or 0 and 9 |
| DbConfig.ToHex | DbConfig.cpp:49-55 | two lower-case digits for each byte |
| DbConfig.FromHex | DbConfig.cpp:57-69 | odd length is an error; each pair is read as a stream reads it |
| DbConfig.HexRoundTrip | DbConfig.cpp:49-69 | reading back what was written gives the bytes |
| DbConfig.HexIsLower | DbConfig.cpp:49-55 | each byte is written as its two halves in small hex digits |
| DbConfig.HexValueIs | DbConfig.cpp:57-69 | a character is a hex digit of value v iff it is the v-th in small letters or capitals |
| DbConfig.PairIs | DbConfig.cpp:57-69 | what a pair of characters is read as, with digits, a space or a sign in it |
| DbConfig.TrimIs | DbConfig.cpp:140-144 | trimming cuts the spaces at both ends, all of them and nothing else |
| DbConfig.SpaceIs | DbConfig.cpp:140-144 | the six characters that count as space |
| DbConfig.LinesRejoin | DbConfig.cpp:126-126 | the lines, each with a break after it, are the text, whether or not it ends in one |
| DbConfig.LineSets | DbConfig.cpp:133-144 | a line sets by what stands before its first `=`, to what stands after, both trimmed |
| DbConfig.FieldsByName | DbConfig.cpp:129-150 | five names set their fields; sections, comments, other names and lines without `=` set nothing |
| DbConfig.MissingIsNamed | DbConfig.cpp:153-158 | a missing field is named, in the order host, user, pass, name |
| DbConfig.StoiReads | DbConfig.cpp:147-147 | a port is read past any space and one sign up to the first character that is no digit, and is an error beyond 32 bits |
| DbConfig.StoiNeedsDigit | DbConfig.cpp:147-147 | without a digit there is no port |
| DbConfig.DefaultPort | DbConfig.cpp:120-161 | a file without a port gives 33060 |
| DbConfig.ParsePlainText | DbConfig.cpp:120-161 | the loop over the lines computes `Parse` |
| DbConfig.NumberRoundTrip | DbConfig.cpp:147-147 | every 32-bit port number survives `to_string` and `stoi` |
| DbConfig.ParseOfSerialized | DbConfig.cpp:167-176 | complete credentials without stray space or line breaks survive being written and parsed |
| DbConfig.ParsedIsBytes | DbConfig.cpp:120-161 | a file of bytes parses to credentials of bytes |
| DbConfig.ParseIsStable | DbConfig.cpp:120-176 | for every text that parses, parse of serialize of parse is parse |
| DbConfig.PlainIsLawful | DbConfig.cpp:183-243 | the law asked of the cipher, that bytes which were sealed unseal, is met by some cipher |
| DbConfig.DecryptedIsEncrypted | DbConfig.cpp:235-271 | the four-line frame gives the credentials back under every cipher that meets it |
| DbConfig.DecryptedLines | DbConfig.cpp:250-320 | four well-formed lines are unsealed, which fails iff the cipher finds them tampered with, and parsed |
| DbConfig.LinesAreChecked | DbConfig.cpp:250-271 | magic word, nonce, tag and ciphertext are checked in turn |
| DbConfig.IsEncryptedIff | DbConfig.cpp:408-409 | a file counts as encrypted iff it starts with the magic word |
| DbConfig.LoadLeaves | DbConfig.cpp:352-451 | a load that fails, and one of an encrypted file, leaves the file as it was; any other leaves the four lines |
| DbConfig.ConfigFile.Load | DbConfig.cpp:352-451 | an encrypted file is read and left; a plain one is parsed and replaced by its encrypted form |
| DbConfig.LoadTwice | DbConfig.cpp:352-451 | for every file of bytes and every such cipher: after a load that succeeds the file is encrypted, and loading again gives the same and changes nothing |
| DbConfig.SampleLoads | DbConfig.cpp:352-451 | one file, loaded plain and loaded again sealed |
| SessionPool.Database.TryAcquire | Database.cpp:242-253 | the front of the queue, or nothing when it is empty |
| SessionPool.Database.Reslot | Database.cpp:206-233 | the first slot of the stale session takes the healed one or null |
| SessionPool.Database.Release | Database.cpp:256-273 | the session goes to the back; null is dropped |
| SessionProtocol.StepValid | Database.cpp:182-315 | every step keeps each session in one place and one slot |
| SessionProtocol.SessionsAreConserved | Database.cpp:182-273 | over every run the queue repeats nothing and holds nobody's session, and free + checked out + being healed + lost = created |
| SessionProtocol.OneHolder | Database.cpp:291-315 | a session is in at most one `ScopedConnection`, and then not in the queue, through moves and assignments |

## Left out

- EngineSafety.EveryRunIsHealthy: needs of the committed requests the signs in `BankInvariants.WellSigned`, which no handler checks, and opening balances that are not negative; the amount of money in the bank is not bounded as `decimal(12,2)` bounds it.
- EngineSafety.EveryRunIsSerial: an account has one spelling, there and everywhere but in `BankInvariants.TransferConserves`; the database compares account numbers, references and idempotency keys without case and accents.
- FalconCache.HitMeansConfirmed: the age is cut to whole milliseconds, so the earlier call is less than 1001 ms old.
- IdempotencyProtocol.StoredAnswerIsFinal: a replay carries a fresh request id in its body. A request without a key passes no gate and is not modelled.
- RateLimiter.SweepIsInvisible: the clock is read before the mutex is taken; readings are taken to come in order, from the epoch on.
- InnoDB row locks beyond those named in `Engine.dfy`, gap locks, isolation levels and database deadlocks: reads see what is committed.
- EngineAlone.SerialRunIsEngineRun: each request runs at one moment of the clock; a handler whose reads and insert fall on different moments is covered by the concurrent results only.
- Lookups that could match several rows take the earliest; the database promises no order.
- A ledger account stands for its `ledger_id`. The transfer row keeps the credited account, which the mobile table does not store.
- Floating point: `double` amounts are exact cents here.
- Time-outs, the 50 ms delay of debits, detached reversal threads, drop-file replay and shutdown. A delay is an arrival that comes later.
- Authorisation of card, PIN, CVV and expiry, fraud rules before a handler, role checks: a request is taken after them.
- `markOriginalReversed`, `last_transaction_time` and other best-effort updates.
- HMAC-SHA256, AES-256-GCM, PBKDF2, base64 and random numbers: functions or parameters, with the one law that unsealing undoes sealing.
- Deciding where the configuration file is and how it is replaced on disk.
- `iccw.cpp` and `ringpay.cpp`, whose debit is the POS one; `card_mgmt.cpp`, `account.cpp`, `tds.cpp`, `auth.cpp`: one-branch operations.
- Reuse of a session's address after `delete`: sessions get numbers that are never used again.
- Order among waiters of one priority: the queue promises none.
