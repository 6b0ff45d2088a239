# Points accounting: a Dafny model and its proofs

This project models how the reward service keeps points: the wallet and escrow protocol,
the append-only ledger, the ingest worker with its dead-letter replay, the event bus and
the balance cache it feeds, point expiration, the CSV award, and two small algorithms the
service relies on (a parenthesis matcher used in CI, and the canonical form that result
hashes are computed from). Check everything with `dafny verify dfyconfig.toml`.

## How it is modelled

**Wallets and escrow.** `EscrowProtocol` is a transition system. Every database call of
hold, settle, refund, partial settle, award, deduct, expire and manual adjustment is one
atomic step, with the branches, rollback writes and missing rollbacks of the code. Any
number of calls interleave, and a call may stop for ever between two steps. Every sequence
of actions is a run; an action that is not enabled when its turn comes changes nothing.
`EscrowLocal`, `EscrowSteps`, `EscrowItems`, `EscrowSerial` and `EscrowAccounts` hold the
invariants; `EscrowTheorems`, `EscrowEntries`, `EscrowStuck` and `EscrowRefused` the results,
stated for every reachable state or every run. `EscrowGuards` says exactly when a call takes each
of its branches, and `EscrowCompletes` what each kind of call leaves when nobody disturbs it;
`EscrowExamples` has concrete runs that reach the bad states. A request carries a flag that says whether the ledger refuses its entries, and the ledger
is asked only after the wallets are updated, as in the code. `WalletDatabase` is the same database as a class whose fields the calls update in
place, with arbitrary steps of other calls before every database call, and `WalletService`
is the service code over it: each program is proved to take exactly the steps of the
transition system and to return what its contract says, so the theorems speak about the
programs.

Callers promise what the source promises of them: hold amounts are positive
(`ARCHITECTURE.md:243`), the parts of a partial settle are not negative, and a release
names, when it names an existing item, one whose hold has returned, with that item's user,
and for a settle or refund its amount (`src/wallets/types/escrow.types.ts:73`, `:122`).

**The rest is serial.** `Ledger` and `Awarding` model the ledger service and the CSV award,
with entries of equal time in insertion order; `Metadata` is the check for personal data that an
entry goes through. `Ingest` models one worker that processes
one event at a time, the handler's outcome being arbitrary. `EventBus` and `BalanceCache`
model the bus and the cache, the outcome of each handler attempt and the eviction of
entries being arbitrary. `Expiration` models the expiry of points. `ParenMatcher` proves
the scanner's flags against a separate lexer, the lexer against texts put together from code,
comments and literals, and `Canonical` proves the token sequence fed
to the hash against an independent notion of equal values.

Clocks, generated ids and keys, handler outcomes and the selection of dead letters to
replay are parameters.

## What the proofs found

Each is stated by the lemma or method in brackets.

- A settle that loses the user wallet has credited the model without debiting the user, and
  puts the item back to 'held', to be settled once more (`Conservation`, `CreditedOnlyReached`,
  `WalletService.SettleEscrow`).
- A settle that loses the model wallet or the race to create it, and a partial settle whose
  parts do not sum to the item's amount or that loses the race to create the model wallet,
  throw with the item locked in its intermediate status. `StuckExactly` says which steps do
  so and that a refund never does, `StuckForever` that no later action moves the item on, and
  `EndedOwnerIsStuck` that nothing else leaves an item locked.
  `StuckPartialReached` and `StuckSettleReached` give runs.
- The ledger refuses metadata with personal data after the wallets are updated. A call whose
  entries it refuses throws with every update committed and no entry, and never returns; it and
  the two half-done settles are the only calls that throw with an update in place
  (`ThrowsCommitted`). Nothing repairs it later (`RefusedForever`): the points of a refused hold
  stay in an item whose id no caller has. `RefusedHoldReached` gives a run. An award row fails
  for the same cause when its free-text reason holds an email address (`UploadCounts`).
- A partial settle that loses the model wallet has debited the user and still puts the item
  back to 'held', so a later release takes the amount again. This is the only way an escrow
  balance falls short of the items it backs, and it ends below zero when all the user's
  items are released (`UnderbackedExactly`); `NegativeEscrowReached` gives a run.
- Releases write no ledger entry for the escrow state, so escrow balances and escrow entries
  drift apart by the released amounts (`WalletAndLedger` says by how much exactly).
- The reconciliation report reads its starting snapshot up to and including `start`, though
  the comment at `src/ledger/ledger.service.ts:345` says before it: entries stamped exactly
  at `start` are counted twice (`ReconciliationDifference`, `StampedAtStart`).
- A replayed event whose first dead letter still exists cannot be dead-lettered again: it is
  finished if and only if one of its claims succeeds, however often it is claimed
  (`SecondLifeEnds`, reached by `SecondLifeReached`; `LastAttempt`).
- Nothing marks a credit as expired, so each expiry run debits the same credits again
  (`BatchDrains`). A batch takes from a wallet what it adds to the ledger if and only if no
  two of its debits of the user fall on one day and those days' keys were unused
  (`DropIsRecorded`); `SecondExpiryUnrecorded` is the failing case, a second expiry on one day.
- The queries behind expiry and warnings return one page of the 100 newest credits. All are
  seen if and only if they fit the page (`NewestIsAll`); what is due and whom to warn are
  complete if and only if nothing beyond the page expires in time (`DueExactly`,
  `GetUsersWithExpiringPoints`).
- The cache hears of escrow operations only. Since a user's last hold, refund or partial
  settle its available balance misses the direct changes and its escrow balance the amounts
  settled (`CacheLag`, `LagReached`).

## Model

| member | source | states |
|---|---|---|
| EscrowTheorems.InterleavingIsSerial | src/wallets/wallet.service.ts:140-179 | in every interleaving, with calls stopping anywhere, the committed wallet and model-wallet updates equal a serial execution of the committed calls in commit order; each call read what the commits before it left, and each commits each update at most once |
| EscrowTheorems.NeverNegative | src/wallets/wallet.service.ts:135-173 | no available and no earned balance is ever negative |
| EscrowTheorems.Conservation | src/wallets/wallet.service.ts:328-374 | all points are the issued points, plus what settles credited without debiting, minus what partial settles debited without crediting, in every reachable state |
| EscrowTheorems.ConservationWhenWhole | src/wallets/wallet.service.ts:637-714 | with no half-done settle or partial settle nothing is created or destroyed |
| EscrowTheorems.EscrowIsBacked | src/wallets/wallet.service.ts:145-179 | a user's escrow balance is the sum of the user's items whose funds are in place, less what lost partial settles took |
| EscrowTheorems.EscrowNonNegative | src/wallets/wallet.service.ts:353-364 | while no partial settle of the user has lost its model wallet, the escrow balance equals its backing and is never negative, though no release checks it |
| EscrowTheorems.UnderbackedExactly | src/wallets/wallet.service.ts:692-714 | an escrow balance falls short of its backing if and only if some partial settle of the user lost its model wallet; when all items are released it is then negative, and only then |
| EscrowTheorems.WalletAndLedger | src/wallets/wallet.service.ts:186-225 | each balance is the sum of its account's ledger amounts plus exactly the committed changes the ledger does not show |
| EscrowTheorems.WalletAndLedgerDistinct | src/ledger/ledger.service.ts:132-163 | when committed calls of different operations with accepted entries derive different ledger keys, an available or earned balance differs from its ledger only by calls that have committed and not written their entry; of those that have ended only half-done settles and refused calls; calls of one escrow operation, and refused calls, may repeat a key |
| EscrowEntries.EntriesRecordCommits | src/wallets/wallet.service.ts:186-225 | in every reachable state each ledger entry shows, before and after, the true balances of its account around one committed update |
| EscrowEntries.AuthorCommitted | src/wallets/wallet.service.ts:730-770 | an entry a call has written records that call's own committed update of the entry's account |
| EscrowTheorems.StatusMoves | src/wallets/wallet.service.ts:288-309 | 'settled' and 'refunded' are absorbing; an intermediate status is entered from 'held' by the call that then owns it, and only that call moves it on; only the hold that made a held item removes it; user, amount, queue item and maker never change |
| EscrowTheorems.FinalForever | src/wallets/wallet.service.ts:377-385 | a final item is the same for the rest of the run |
| EscrowTheorems.OneOwner | src/db/models/escrow-item.model.ts:102-105 | an item in an intermediate status has exactly one owner, any other has none, and a queue item has at most one escrow item |
| EscrowStuck.StuckExactly | src/wallets/wallet.service.ts:636-662 | in every reachable state a call's next step throws with its item locked if and only if a settle loses the model wallet or the race to create it, or a partial settle's parts do not sum to the item's amount or it loses that race; a refund never does |
| EscrowStuck.StuckForever | src/wallets/wallet.service.ts:342-344 | a stuck call's item stays in its intermediate status, owned by it, for the rest of the run |
| EscrowStuck.StuckIsLocked | src/wallets/wallet.service.ts:366-374 | a call that has ended keeps its item locked if and only if it is stuck |
| EscrowStuck.EndedOwnerIsStuck | src/wallets/wallet.service.ts:517-523 | an item whose owner has ended has a stuck owner |
| EscrowStuck.StuckIsClean | src/wallets/wallet.service.ts:490-493 | a stuck call is a settle or a partial settle and has committed nothing |
| EscrowRefused.ThrowsCommitted | src/ledger/ledger.service.ts:65-84 | a call that has ended threw with an update in place if and only if it is a settle that credited the model alone, a partial settle that debited the user alone, or it committed everything and its metadata is refused; it returned if and only if it committed everything and its metadata is accepted |
| EscrowRefused.RefusedLeaves | src/wallets/wallet.service.ts:366-389 | a call whose entry was refused has committed every update, is in no ledger entry, and has left its item settled, refunded or, for a hold, held |
| EscrowRefused.RefusedForever | src/wallets/wallet.service.ts:181-225 | it stays so for the rest of the run; the amount of a refused hold backs the user's escrow for ever |
| EscrowExamples.NegativeEscrowReached | src/wallets/wallet.service.ts:706-714 | a run of 39 actions ends with a lost partial settle and an escrow balance of -10 |
| EscrowExamples.CreditedOnlyReached | src/wallets/wallet.service.ts:366-374 | a run in which a settle ends with the model credited, the user not debited and the item held again |
| EscrowExamples.StuckPartialReached | src/wallets/wallet.service.ts:633-638 | a run in which a partial settle with wrong parts is stuck with its item locked |
| EscrowExamples.StuckSettleReached | src/wallets/wallet.service.ts:342-344 | a run in which a settle loses the model wallet and is stuck with its item locked |
| EscrowExamples.RefusedHoldReached | src/wallets/wallet.service.ts:181-203 | a run in which a hold commits and throws, its points in an item whose id nobody has |
| EscrowCompletes.HoldCompletes | src/wallets/wallet.service.ts:122-261 | from any reachable state a hold that nobody disturbs completes, given the points, an unused key, an unused queue item and accepted metadata: its amount is in escrow, its item held, and its two entries are in the ledger |
| EscrowCompletes.RefundCompletes | src/wallets/wallet.service.ts:444-586 | from any reachable state a refund of a held item that nobody disturbs returns: the amount is available again and out of escrow, the item refunded, the entry written, and all else as before |
| EscrowCompletes.SettleCompletes | src/wallets/wallet.service.ts:266-439 | likewise a settle: the amount is out of the user's escrow and with the model, whose wallet it creates when there is none, the item settled, the entry written |
| EscrowCompletes.PartialCompletes | src/wallets/wallet.service.ts:591-809 | likewise a partial settle whose parts sum to the item's amount: one part back with the user, the other with the model, an entry for each part that is not zero |
| EscrowCompletes.AwardCompletes | src/services/point-accrual.service.ts:130-227 | from any reachable state an award that nobody disturbs returns for every amount within the bounds and accepted metadata, creating the wallet when there is none; the balance has the amount more |
| EscrowCompletes.DeductCompletes | src/services/point-accrual.service.ts:421-509 | likewise a deduction, whenever the balance covers it, down to the last point |
| EscrowCompletes.AdjustCompletes | src/services/admin-ops.service.ts:242-280 | likewise a manual adjustment of either sign that leaves no debt |
| EscrowCompletes.ExpireCompletes | src/services/point-expiration.service.ts:113-221 | likewise an expiry, which takes what has expired down to an empty wallet |
| EscrowGuards.CommitsExactly | src/wallets/wallet.service.ts:495-515 | in every reachable state a call's next step commits its update of a wallet or a model wallet if and only if that still has the version read and, for a deduction, covers the amount |
| EscrowGuards.ReleasesExactly | src/wallets/wallet.service.ts:516-523 | in every reachable state a release goes to put its item back, and a hold to delete its item, if and only if a wallet no longer has the version it read |
| EscrowGuards.RetriesExactly | src/services/point-accrual.service.ts:172-195 | in every reachable state a call that updates starts another attempt if and only if it has lost its wallet and, where attempts are counted, one is left |
| EscrowGuards.ThrowsExactly | src/wallets/wallet.service.ts:466-493 | in every reachable state a call's next step is rejected, fails, or is refused its entry, each if and only if its guard holds: a used claim; no held item, no wallet, a balance that does not cover the amount, a duplicate, or no attempt left; refused metadata |
| EscrowGuards.ReadsExactly | src/services/point-accrual.service.ts:442-453 | a call that finds its wallet goes on with the balances stored there; a hold or deduction if and only if the balance is at least the amount, an adjustment if and only if it leaves no debt, an expiry if and only if there are points |
| EscrowGuards.AdmitsExactly | src/services/point-accrual.service.ts:425-432 | an award, deduction or adjustment is refused before any read if and only if its amount is out of bounds or no attempt is allowed |
| EscrowTheorems.ClaimActsOnce | src/ledger/ledger.service.ts:448-472 | in every run, among all escrow calls with one key and scope at most one ever changes a wallet, a model wallet, an item or the ledger |
| EscrowTheorems.TouchNeedsClaim | src/wallets/wallet.service.ts:94-100 | an escrow call that changes anything has won its claim |
| EscrowTheorems.HoldIsBounded | src/wallets/wallet.service.ts:103-117 | a hold runs at most `maxRetryAttempts` times under any interference and sleeps at most the geometric sum of its back-offs |
| EscrowTheorems.HoldSleeps | src/wallets/wallet.service.ts:103-117 | a hold has slept exactly the doubling back-offs of the retries it made |
| EscrowTheorems.HoldFailsCleanly | src/wallets/wallet.service.ts:136-179 | a hold that threw or lost its claim leaves no balance change, no ledger entry and no item, if and only if it is not one that committed with metadata the ledger refuses |
| EscrowTheorems.DirectIsBounded | src/services/point-accrual.service.ts:135-195 | an award or deduction retries at most `maxRetryAttempts` times, with its total back-off bounded |
| EscrowTheorems.DirectSleeps | src/services/point-accrual.service.ts:191-195 | an award or deduction has slept exactly the doubling back-offs of the retries it made |
| EscrowTheorems.DirectFailsCleanly | src/services/point-accrual.service.ts:455-478 | a direct writer that threw has changed no balance and written no entry, if and only if it is not one that committed with metadata the ledger refuses |
| EscrowTheorems.ActsTo | src/wallets/wallet.service.ts:91-261 | a state reached through a run is the one its actions compute |
| EscrowTheorems.ExecIsReachable | src/wallets/wallet.service.ts:91-261 | every sequence of actions of any calls computes a reachable state |
| EscrowItems.CustodyHolds | src/wallets/wallet.service.ts:466-532 | in every run each item agrees with the hold that made it and the call that owns it, claims are unique, and every call's progress matches its step |
| EscrowSerial.OrderedHolds | src/wallets/wallet.service.ts:648-714 | in every run what a call read is still current whenever its version still matches |
| EscrowAccounts.AccountedHolds | src/wallets/wallet.service.ts:730-770 | in every run balances, backing, totals and ledger sums are the sums over calls stated by the theorems |
| EscrowAccounts.KeyIsFree | src/ledger/ledger.service.ts:141-163 | under the same assumption a call about to write an entry never finds its key used |
| EscrowAccounts.SameScopeKeys | src/wallets/wallet.service.ts:186-225 | requests of one escrow operation with different idempotency keys share no ledger key, so claims keep their entries apart |
| EscrowLocal.LocalStep | src/services/point-accrual.service.ts:172-219 | each step keeps which updates and entries a call has made at each point of its program |
| EscrowLocal.RetriesStep | src/services/point-accrual.service.ts:191-195 | each step keeps the retry counter bounded and the time slept equal to the geometric sum |
| EscrowSteps.AdvanceShape | src/services/admin-ops.service.ts:242-280 | every step of every kind of call writes one document, in one of the ways the invariants are proved against |
| WalletDatabase.Database.Interleave | src/wallets/wallet.service.ts:288-309 | any steps of other calls leave this call where it was |
| WalletDatabase.Database.ClaimIdempotency | src/ledger/ledger.service.ts:448-472 | the claim is taken exactly once; the call goes on or is rejected |
| WalletDatabase.Database.FindWallet | src/wallets/wallet.service.ts:124 | the read takes the call's next step with the value found |
| WalletDatabase.Database.CreateWallet | src/wallets/wallet.service.ts:125-133 | creates an empty wallet or fails on the unique index |
| WalletDatabase.Database.FindModelWallet | src/wallets/wallet.service.ts:312 | the read takes the call's next step with the value found |
| WalletDatabase.Database.CreateModelWallet | src/wallets/wallet.service.ts:313-321 | creates an empty model wallet or fails on the unique index |
| WalletDatabase.Database.Insert | src/wallets/wallet.service.ts:145-157 | inserts a held item under a new id or fails when the queue item has one |
| WalletDatabase.Database.SetBalances | src/wallets/wallet.service.ts:160-173 | the absolute update succeeds only on the version read |
| WalletDatabase.Database.IncBalances | src/services/point-accrual.service.ts:455-473 | the increment succeeds only on the version read and above the minimum |
| WalletDatabase.Database.SetEarned | src/wallets/wallet.service.ts:328-344 | the model update succeeds only on the version read |
| WalletDatabase.Database.LockHeld | src/wallets/wallet.service.ts:288-309 | moves only a held item; the item agrees with the request and its amount is positive |
| WalletDatabase.Database.SetStatus | src/wallets/wallet.service.ts:368-385 | the unconditional status write always finds the call's own item |
| WalletDatabase.Database.Delete | src/wallets/wallet.service.ts:175-179 | removes the item and puts the hold before its next attempt or its failure |
| WalletDatabase.Database.CreateEntry | src/ledger/ledger.service.ts:132-163 | throws, before anything else, exactly when the metadata is refused; else appends the entry or finds its key used |
| WalletService.WalletService.HoldInEscrow | src/wallets/wallet.service.ts:91-118 | under arbitrary interference: a returned response holds the true balances around the commit and its metadata was accepted; a throw leaves nothing, or, when the metadata was refused, the committed balances and the held item without an entry; an insufficient balance is reported only with fewer points than the amount, a conflict only when the attempts are used up, a used key only to a call whose claim was taken; the time slept is exactly that of the retries |
| WalletService.WalletService.RetryHold | src/wallets/wallet.service.ts:103-117 | the retry loop ends in a completed hold, a failed one, or one refused after its commit, having slept what the protocol records |
| WalletService.WalletService.ExecuteHoldInEscrow | src/wallets/wallet.service.ts:122-261 | one attempt completes, fails for good, throws on refused metadata after its commit, or has deleted its item and may retry |
| WalletService.WalletService.SettleEscrow | src/wallets/wallet.service.ts:266-439 | on return the item is settled and both wallets are committed with the reported balances; a throw says what it left: nothing before the lock, the model credited and the item held after a lost user wallet, nothing but the item in 'settling' after a lost model wallet or creation, everything but the entry after refused metadata, and no other; an item is reported missing or processed as the database shows it |
| WalletService.WalletService.RefundEscrow | src/wallets/wallet.service.ts:444-586 | on return the item is refunded and the wallet committed; a throw leaves no change, with the item held again when it had been locked, or after refused metadata everything but the entry, and no other; when it returns is `RefundCompletes` and `ReleasesExactly` |
| WalletService.WalletService.PartialSettleEscrow | src/wallets/wallet.service.ts:591-809 | on return the item is settled and both wallets committed; a throw says what it left: nothing before the lock, the item held after a lost user wallet, the user debited and the item held after a lost model wallet, nothing but the item in 'partial_settling' after differing amounts or a lost creation, everything but the entries after refused metadata, and no other |
| WalletService.WalletService.AwardPoints | src/services/point-accrual.service.ts:130-227 | on return the balance is committed as reported; a throw leaves nothing, or after refused metadata the committed balance without an entry; an amount is refused only out of bounds, a conflict only reported when the attempts are used up; the recursion on the counter ends |
| WalletService.WalletService.DeductFromAvailable | src/services/point-accrual.service.ts:421-509 | on return the balance is committed as reported and not negative; a throw leaves nothing, or after refused metadata the committed debit without an entry; an insufficient balance is reported only with fewer points than required, an amount refused only out of bounds, a conflict only reported when the attempts are used up |
| WalletService.CommitFound | src/wallets/wallet.service.ts:160-173 | a call that has committed is in the commit history with the balances it read and left |
| EscrowTheorems.Uncommitted | src/wallets/wallet.service.ts:366-374 | a call that never committed and has no item in place has left nothing |
| Ledger.LedgerService.FindByKey | src/ledger/ledger.service.ts:150-160 | finds an entry exactly when the key is used |
| Ledger.LedgerService.CreateEntry | src/ledger/ledger.service.ts:52-163 | refuses an impossible state, metadata with personal data, then a missing reason, leaving the ledger as it was; else appends one stamped entry or returns the existing one |
| Ledger.LedgerService.GetBalanceSnapshot | src/ledger/ledger.service.ts:273-334 | the loop computes the last-write-wins balance of each state up to the date |
| Ledger.LedgerService.GenerateReconciliationReport | src/ledger/ledger.service.ts:339-405 | the loops compute the report the lemmas are about |
| Ledger.ReportAddsUp | src/ledger/ledger.service.ts:372-399 | in the report the calculated balance is the starting one plus credits minus debits, the difference is actual minus calculated, and it is reconciled exactly when that is zero |
| Ledger.TotalsCount | src/ledger/ledger.service.ts:347-370 | each credit of the account within the range, its ends included, adds its amount to the total of credits alone, each debit its size to the total of debits alone, and no other entry counts |
| Ledger.ReportBalances | src/ledger/ledger.service.ts:345-389 | the starting and actual balances are those shown at the two dates: available and escrow of a user, available and earned of a model |
| Ledger.SnapshotFollows | src/ledger/ledger.service.ts:273-334 | an entry of the account dated up to the snapshot replaces the balance of its own state and no other; any other entry changes nothing |
| Ledger.ReconciliationDifference | src/ledger/ledger.service.ts:339-405 | for every time-ordered ledger with correct entries and any range, also a reversed one, the difference is the gaps after `start` minus the amounts stamped at `start` |
| Ledger.StampedAtStart | src/ledger/ledger.service.ts:345-359 | a report from the date of a ledger's one correct entry is off by exactly its amount |
| Ledger.SnapshotGrowth | src/ledger/ledger.service.ts:300-316 | between two dates a snapshot grows by the amounts and the gaps in between |
| Ledger.FullHistoryReconciles | src/services/reconciliation.service.ts:63-101 | over the full history a ledger reconciles if and only if its gaps sum to zero |
| Ledger.ChainedHasNoGaps | src/ledger/ledger.service.ts:346-404 | a chained ledger has no gaps in any range |
| Ledger.LedgerService.CreditPoints | src/ledger/ledger.service.ts:580-613 | refuses a non-positive amount or a text with an email address, else appends the credit unless its key is used |
| Ledger.LedgerService.DeductPoints | src/ledger/ledger.service.ts:630-668 | refuses a non-positive amount, an insufficient balance or a text with an email address, else appends the debit unless its key is used |
| Ledger.CreditsExactly | src/ledger/ledger.service.ts:580-613 | a credit succeeds if and only if its amount is positive and no text holds an address; it then appends one entry that raises the balance, unless its key is used |
| Ledger.DeductsExactly | src/ledger/ledger.service.ts:630-668 | a deduction succeeds if and only if its amount is positive, the balance covers it, down to the last point, and no text holds an address; it then appends one entry that lowers the balance, unless its key is used |
| Ledger.DeductLowers | src/ledger/ledger.service.ts:644-668 | a deduction with an unused key lowers its account's balance by the amount and no other balance |
| Ledger.LedgerOnlyPath | src/ledger/ledger.service.ts:580-668 | every serial sequence of credits and deductions keeps each account chained, non-negative, and its snapshot equal to its sum of amounts |
| Ledger.ChainedSnapshot | src/ledger/ledger.service.ts:273-316 | in a chained ledger the snapshot is the sum of amounts and not negative |
| Ledger.KeyPersists | src/ledger/ledger.service.ts:132-163 | a used key stays used through any later commands |
| Ledger.KeyStaysUsed | src/ledger/ledger.service.ts:141-163 | repeating a call with a used key, at any later time, changes nothing |
| Ledger.DescribedIsRefused | src/ledger/ledger.service.ts:591-611 | the metadata of a promotional credit or debit is refused if and only if its reason or its source holds an email address |
| Metadata.Check | src/ledger/ledger.service.ts:65-84 | the loop over the fields throws exactly when a field has a personal name or a text with an email address |
| Metadata.AddressInText | src/ledger/ledger.service.ts:75-83 | an address that is found alone is found inside any text that sets it off by spaces |
| Metadata.SixNames | src/ledger/ledger.service.ts:65-74 | a name in small letters is refused if and only if it is one of the six |
| Metadata.CapitalsAreIgnored | src/ledger/ledger.service.ts:65-74 | capital letters make no difference to which names are refused |
| Awarding.UploadCSV | src/services/awarding-wallet.service.ts:9-31 | every row is counted once; the errors are exactly the rows without positive points or with an email address in their reason or merchant, in order, each with its cause |
| Awarding.UploadRaises | src/services/awarding-wallet.service.ts:9-31 | a batch raises each creator's balance by exactly the sum of the creator's successful rows |
| Awarding.UploadCounts | src/services/awarding-wallet.service.ts:12-30 | successes and failures add up to the rows, and error rows strictly increase |
| Awarding.UploadReports | src/services/awarding-wallet.service.ts:20-27 | no row that cannot succeed goes unreported |
| Awarding.CreditRaises | src/ledger/ledger.service.ts:670-678 | a credit with an unused key and accepted texts raises its account and no other |
| Ingest.Resolve | src/ingest-worker/worker.ts:21-30 | missing or zero settings fall back to 5 attempts, one second, one minute and doubling; given ones are kept |
| Ingest.DelaysGrow | src/ingest-worker/worker.ts:326-333 | for a multiplier of at least one, delays never shrink and never exceed the cap |
| Ingest.FirstDelays | src/ingest-worker/worker.ts:326-333 | the first delay is the initial one, the second the multiplier times it, each cut off at the cap |
| Ingest.IngestWorker.CalculateNextAttempt | src/ingest-worker/worker.ts:326-333 | the power formula gives the delay of the recurrence, each delay the multiplier times the one before up to the cap, so the next attempt is at most the cap away |
| Ingest.PowerIsUncapped | src/ingest-worker/worker.ts:327-329 | the closed form equals the recurrence |
| Ingest.IngestWorker.MoveToDLQ | src/ingest-worker/worker.ts:338-398 | buries the event or throws when its dead letter cannot be inserted |
| Ingest.IngestWorker.HandleRetryable | src/ingest-worker/worker.ts:269-309 | requeues with a delay, or dead-letters when attempts are used up |
| Ingest.IngestWorker.ProcessEvent | src/ingest-worker/worker.ts:131-207 | one call of the worker does to the collections what the model function says, for every outcome |
| Ingest.ReplayController.Replay | src/ingest-worker/replay.ts:20-174 | requeues the given dead letters, skipping processed ones, and counts both |
| Ingest.ProcessEffect | src/ingest-worker/worker.ts:247-321 | one claim changes only its event, adds at most one run, and records the event exactly on success |
| Ingest.ClaimsExactly | src/ingest-worker/worker.ts:131-150 | a claim changes something if and only if the event is queued or in processing |
| Ingest.RetryRequeues | src/ingest-worker/worker.ts:269-291 | a failure that may be retried, or a throw, with attempts to spare queues the event again, with one attempt more, due after the delay for it, and writes no dead letter |
| Ingest.LastFailureBuries | src/ingest-worker/worker.ts:269-277 | without attempts to spare it dead-letters the event with the attempts used, when the dead letter can be inserted |
| Ingest.FatalFailureBuries | src/ingest-worker/worker.ts:303-309 | a failure that may not be retried dead-letters the event at once; when its dead letter exists it counts as a throw |
| Ingest.SuccessProcesses | src/ingest-worker/worker.ts:252-259 | a success processes and records the event; a recorded event is processed without a run |
| Ingest.BuriedExactly | src/ingest-worker/worker.ts:269-309 | whatever happens next, an unfinished event without a dead letter gets one if and only if it is claimed and the handler fails for good or fails on the last attempt |
| Ingest.ReplaysExactly | src/ingest-worker/replay.ts:70-127 | a replay queues exactly the selected events without a record, with no attempt used, and leaves all others and the dead letters as they are |
| Ingest.AtMostOnceHolds | src/ingest-worker/worker.ts:403-438 | over every serial run an event is processed exactly when it has its record, and the handler then succeeded on it exactly once, otherwise never |
| Ingest.NeverRunAgain | src/ingest-worker/replay.ts:238-245 | once recorded, neither the worker nor a replay makes the handler run on the event again |
| Ingest.ClaimProgress | src/ingest-worker/worker.ts:134-144 | a claim finishes the event or uses up one attempt |
| Ingest.Terminates | src/ingest-worker/worker.ts:269-309 | an event that is not replayed is processed or dead-lettered after at most `maxRetryAttempts` claims, whatever else happens |
| Ingest.KnownHolds | src/ingest-worker/worker.ts:338-398 | over every run, only events that have arrived have dead letters |
| Ingest.ArrivalTerminates | src/ingest-worker/worker.ts:269-309 | from the empty store on, an event that arrives under a new id and is claimed `maxRetryAttempts` times without being replayed is processed or dead-lettered |
| Ingest.LastAttempt | src/ingest-worker/worker.ts:269-277 | when the last attempt fails the event is dead-lettered if and only if its dead letter can be inserted |
| Ingest.SecondLifeEnds | src/ingest-worker/replay.ts:98-113 | a live, unrecorded event whose dead letter exists is finished, after any actions, if and only if one of its claims has succeeded |
| Ingest.SecondLifeReached | src/ingest-worker/replay.ts:70-127 | arrival, a fatal failure and a replay bring an event there |
| ParenMatcher.MatchClosingParen | scripts/ci/tenant-id-scope-check.js:85-165 | returns the first code position that brings the depth to zero, or -1 exactly when there is none; the mode flags exclude each other throughout |
| ParenMatcher.InsideIsBalanced | scripts/ci/tenant-id-scope-check.js:151-158 | the code strictly between the parentheses is balanced |
| ParenMatcher.CodeInside | scripts/ci/tenant-id-scope-check.js:95-150 | the lexer's code positions lie in the text and increase |
| ParenMatcher.CodeIsPlain | scripts/ci/tenant-id-scope-check.js:95-154 | in a text put together from code characters, line comments, block comments and string literals with escapes, the lexer's code positions are exactly those of the code characters |
| ParenMatcher.DepthCounts | scripts/ci/tenant-id-scope-check.js:155-158 | the depth is the number of '(' less the number of ')' among the code characters |
| Canonical.TokensInjective | src/services/idempotency.service.ts:82-99 | a token sequence determines its value, whatever follows it |
| Canonical.SortCanonical | src/services/idempotency.service.ts:88-96 | sorting members by key gives the same sequence for the same set of members |
| Canonical.SortLists | src/services/idempotency.service.ts:88-96 | the sorted form lists array-index keys first by their number, then the others by their first difference |
| Canonical.LexExactly | src/services/idempotency.service.ts:88-96 | the string order compares the first characters that differ, a prefix coming first |
| Canonical.IndexExactly | src/services/idempotency.service.ts:88-96 | the keys an object lists first are exactly the decimals below 2^32 - 1 |
| Canonical.StableIsCanonical | src/services/idempotency.service.ts:82-99 | two values have the same sorted form if and only if they are equal up to key order at every depth |
| Canonical.HashInputIsCanonical | src/services/idempotency.service.ts:82-99 | the token sequences fed to the hash are equal if and only if the values are, up to key order, array order kept |
| Canonical.ScopesDiffer | src/services/idempotency.service.ts:73-78 | for operation names without a colon, equal scopes come from equal tenants and operations |
| EventBus.ListsStaySorted | src/events/event-bus.ts:67-98 | through any sequence of subscribes and unsubscribes each list is the stable sort by effective priority of the live subscriptions in order of arrival |
| EventBus.SortIsStable | src/events/event-bus.ts:73-77 | the list is ordered by rank and each rank keeps its order of arrival |
| EventBus.OfRankExactly | src/events/event-bus.ts:76-77 | the subscriptions of a rank are those with that priority, a missing or zero priority counting as 100 |
| EventBus.ServedInOrder | src/events/event-bus.ts:76-77 | through any sequence of subscribes and unsubscribes whoever stands earlier in a list has the lower or the same number |
| EventBus.SubscribeReaches | src/events/event-bus.ts:67-78 | a subscribe adds the subscription to the list of each of its types, once for each time it names the type, and changes nothing else |
| EventBus.SortWithout | src/events/event-bus.ts:89-98 | removing a subscriber and sorting commute |
| EventBus.KeysCollide | src/events/event-bus.ts:244-250 | two events collide exactly when they share an id or a non-empty idempotency key |
| EventBus.DeliveredOncePerTtl | src/events/event-bus.ts:222-266 | two colliding events delivered at all are more than the time-to-live apart |
| EventBus.DeliversExactly | src/events/event-bus.ts:103-128 | after any run a publish delivers its event if and only if no colliding delivery was within the time-to-live at the last clean-up |
| EventBus.EventBus.Subscribe | src/events/event-bus.ts:67-78 | adds the subscription to the list of each of its types |
| EventBus.EventBus.Unsubscribe | src/events/event-bus.ts:89-98 | the loop leaves no entry of the subscriber in any list and every other entry as often as before, in order |
| EventBus.EventBus.Clean | src/events/event-bus.ts:255-266 | the loop forgets a key exactly when it is older than the time-to-live, and changes no other |
| EventBus.EventBus.NotifySubscriber | src/events/event-bus.ts:185-217 | the handler runs until its first success, at most `maxRetryAttempts` times, and exactly that often when it fails |
| EventBus.EventBus.NotifyAll | src/events/event-bus.ts:134-164 | exactly the runs of each subscriber, one after another in list order; the successes counted and the failed listed |
| EventBus.EventBus.Publish | src/events/event-bus.ts:103-180 | a duplicate reaches nobody; otherwise exactly the runs of every subscriber to the type, in list order, and the keys are remembered |
| EventBus.ReportsExactly | src/events/event-bus.ts:134-180 | every subscriber is counted once, as notified or as failed; an id is reported if and only if all attempts of one of its places throw, and nothing is reported if and only if every place has an attempt that does not |
| EventBus.RunsInOrder | src/events/event-bus.ts:138-142 | the runs of one subscriber stand together, after those of all earlier and before those of all later ones |
| EventBus.RunsBounded | src/events/event-bus.ts:185-217 | no handler runs more than `maxRetryAttempts` times for each of its places in the list |
| EventBus.HandlerRuns | src/events/event-bus.ts:185-217 | all but the last run throw; the last does not exactly when the handler succeeds; a failing handler has exactly the bound of runs |
| BalanceCache.KeysDiffer | src/events/balance-snapshot-cache.ts:347-349 | cache keys of different accounts differ |
| BalanceCache.CacheLag | src/events/balance-snapshot-cache.ts:182-306 | after any serial history of holds, settles, refunds, partial settles and direct changes, with losses anywhere, cached earned balances are the model wallets'; since the user's last hold, refund or partial settle a cached available balance misses exactly the direct changes and a cached escrow balance exactly the amounts settled |
| BalanceCache.LagReached | src/events/balance-snapshot-cache.ts:209-231 | after a hold, an award and a settle the cached balances of the user are off by the award and the settled amount |
| BalanceCache.EvictionIsLoss | src/events/balance-snapshot-cache.ts:354-367 | an eviction is one of the losses the lag formula allows |
| BalanceCache.BalanceSnapshotCache.EvictIfNeeded | src/events/balance-snapshot-cache.ts:354-367 | the size ends at most `maxSize`, and no evicted entry is newer than a kept one |
| BalanceCache.NewestSurvives | src/events/balance-snapshot-cache.ts:354-367 | the entry with the latest time is never evicted |
| BalanceCache.UserIsStored | src/events/balance-snapshot-cache.ts:182-258 | after a user's event that is the latest the cache holds exactly the two balances it carries, its time and the next version, and no other account's entry has changed |
| BalanceCache.ModelIsStored | src/events/balance-snapshot-cache.ts:209-231 | after a model's event that is the latest the cache holds exactly the earned balance it carries |
| BalanceCache.BalanceIsStored | src/events/balance-snapshot-cache.ts:142-177 | after a general balance event that is the latest the cache holds exactly the balance it names, the others as they were; a new entry shows zero for any balance that is not of its kind of account |
| BalanceCache.BalanceSnapshotCache.HandleBalanceUpdated | src/events/balance-snapshot-cache.ts:142-177 | sets the one balance named, then evicts |
| BalanceCache.BalanceSnapshotCache.HandleEscrowHeld | src/events/balance-snapshot-cache.ts:182-204 | sets the user's two balances, then evicts |
| BalanceCache.BalanceSnapshotCache.HandleEscrowSettled | src/events/balance-snapshot-cache.ts:209-231 | sets the model's balance and not the user's, then evicts |
| BalanceCache.BalanceSnapshotCache.HandleEscrowRefunded | src/events/balance-snapshot-cache.ts:236-258 | sets the user's two balances, then evicts |
| BalanceCache.BalanceSnapshotCache.HandleEscrowPartialSettled | src/events/balance-snapshot-cache.ts:263-306 | sets the user's and the model's balances, then evicts |
| BalanceCache.BalanceSnapshotCache.GetBalance | src/events/balance-snapshot-cache.ts:311-327 | returns a live entry, and drops one older than the time-to-live |
| BalanceCache.BalanceSnapshotCache.Invalidate | src/events/balance-snapshot-cache.ts:332-335 | the account is not cached any more, and every other account is cached as before |
| Expiration.NewestIsPage | src/ledger/ledger.service.ts:216-254 | the query returns exactly the newest matching entries up to the page limit |
| Expiration.OlderCreditsUnseen | src/ledger/ledger.service.ts:216-240 | once recent credits fill the page, older ones are never seen |
| Expiration.NewestIsAll | src/ledger/ledger.service.ts:216-254 | every matching entry is returned if and only if they fit the page |
| Expiration.MatchingIsAll | src/ledger/ledger.service.ts:168-212 | the matching entries are the ledger's credits to available balances, of the account and account type asked for, each as often as there |
| Expiration.DueExactly | src/services/point-expiration.service.ts:118-145 | what is due is all that has expired less the expired credits beyond the page; with positive amounts it is all if and only if none of those has expired |
| Expiration.OthersAreNotDue | src/services/point-expiration.service.ts:117-124 | nothing is due from a user without an entry, whatever the ledger holds of others, and the expiry changes nothing |
| Expiration.DueUnaffected | src/services/point-expiration.service.ts:117-141 | an entry that is no credit to the user's available balance leaves what is due |
| Expiration.DueGrows | src/services/point-expiration.service.ts:118-141 | while the page has room, the user's next credit adds its amount to what is due if and only if its expiry date is past by the grace period |
| Expiration.ExpiresExactly | src/services/point-expiration.service.ts:144-213 | a user is debited if and only if something is due and there are points, by the lesser of the two; what the debit leaves in the wallet and in the ledger |
| Expiration.PointExpirationService.ProcessUserExpiration | src/services/point-expiration.service.ts:113-221 | debits the wallet by the expired total, down to zero, and records it under the day's key |
| Expiration.PointExpirationService.ProcessBatchExpiration | src/services/point-expiration.service.ts:233-276 | for every list and batch size: each user handled once in order, every user counted, and the drop in total available points is the reported total |
| Expiration.PointExpirationService.GetUsersWithExpiringPoints | src/services/point-expiration.service.ts:285-339 | one warning per account, with exact sum and earliest date, for the entries on the page; exact for every matching entry if and only if none beyond the page expires soon |
| Expiration.WarningsExactly | src/services/point-expiration.service.ts:303-329 | a list exact for the page is exact for the whole ledger if and only if no entry beyond the page expires soon |
| Expiration.WarnedExactly | src/services/point-expiration.service.ts:303-329 | exactly the accounts with an entry expiring within the period, its ends included, are warned, and of the sum of those entries |
| Expiration.WarningsComplete | src/services/point-expiration.service.ts:303-329 | when every matching entry fits the page the list groups them all |
| Expiration.DueUnchanged | src/services/point-expiration.service.ts:118-141 | an expiry leaves every amount due as it was |
| Expiration.BatchCounts | src/services/point-expiration.service.ts:252-272 | the errors are exactly the listed users that owe something and have no wallet, in order |
| Expiration.BatchSuccesses | src/services/point-expiration.service.ts:252-272 | the successes reported are exactly the debited places of the list |
| Expiration.BatchConserves | src/services/point-expiration.service.ts:258-264 | the drop in total available points is the reported total |
| Expiration.BatchDrains | src/services/point-expiration.service.ts:150-180 | each wallet is drained by all its user owes over every mention in the list, down to zero, and no escrow balance changes |
| Expiration.DropIsRecorded | src/services/point-expiration.service.ts:187-213 | a batch takes from a wallet what it adds to the ledger if and only if no two of its debits of the user fall on one day and those days' keys were unused |
| Expiration.SecondExpiryUnrecorded | src/services/point-expiration.service.ts:191-195 | a second expiry of a user on one day debits the wallet again and adds no entry |
| Expiration.PaysExactly | src/services/point-expiration.service.ts:144-160 | which places of the list are debited, judged on the world before the batch |
| Expiration.KeyInBatch | src/services/point-expiration.service.ts:191-193 | a day's key is used after a batch exactly when it was used before or the batch debited the user that day |
| Expiration.GroupsStep | src/services/point-expiration.service.ts:309-329 | the grouping step keeps one exact warning per account |

## Left out

- WalletDatabase.Database.SkipEntry: stands for the entry of a zero part, which the code does not write.
- Claims expire after 90 days in the program; in the model they last for ever.
- Authorization tokens, roles, session participation and the transaction fallback around the atomic steps.
- Correlation ids, currencies, request ids and the lists of reasons each call admits. A request of the wallet protocol carries the outcome of the metadata check and not the metadata; callers that give no reason, against its type, count as refused.
- The retry recursion of manual adjustment and of one user's expiry has no counter, so both are steps of the transition system and not methods with a termination proof.
- `awardPoints` checks an idempotency record it never writes; the check is not modelled and distinct keys are assumed where needed.
- Balance corrections with `allowNegative`, which break non-negativity on purpose.
- Point amounts are integers, so the 0.01 tolerances mean equality.
- Tenants: one tenant throughout.
- Concurrent ledger-only calls, concurrent ingest workers and `nextAttemptAt` of queued events, which the program does not enforce; replay takes its selection of dead letters as a parameter and, like the program, does not look at `replayable`.
- The worker's polling loop and its table of handlers: a handler is its outcome.
- The bus in its fire-and-forget mode reports before the handlers have finished; the model waits for them, as the other mode does.
- The bus runs retries of different subscribers one after another, and users within one expiration batch are handled in list order; the program lets them overlap.
- Which of several equally old cache entries is evicted.
- Calendar days outside the years 0 to 9999, which are not ten characters long.
- General balance events: the cache handles them, but nothing in the program publishes one.
- Number and string escapes in JSON, undefined members, and UTF-16 code units beyond characters; member names are compared after the engine's own order, and a "__proto__" key is dropped, as in the program.
- `checkKey` and `recordKey` of the idempotency service, tier rules, earn rates, exchange rates, reservations, reporting, fraud signals, gifting, health and metrics.
