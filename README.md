# Funds transfer engine — a Dafny model

This project models the transfer engine of a small account-keeping service.
A transfer request names a sender account, a recipient account and an
amount. The engine looks up the sender and then the recipient in the
account store. It takes the two account monitors in a fixed order (by
account identifier under `String.compareTo`). Inside them it withdraws from
the sender, failing with `InsufficientBalance` when the balance does not
cover the amount, and deposits to the recipient. Afterwards it notifies the
sender and then the recipient. A missing account fails with
`AccountNotFound`. Before the engine runs, bean validation checks the
request: both identifiers must be non-blank, and the amount must be present
and at least zero.

Modules:

- `Wrappers` (`wrappers.dfy`): `Option` for Java's nullable fields, `Result` for a value or a thrown exception.
- `JavaStrings` (`java_strings.dfy`): `String.compareTo`, which fixes the lock order, and `String.trim`, which decides `@NotBlank`.
- `TransferRequests` (`transfer_request.dfy`): the request record and its validity predicate.
- `Ledger` (`ledger.dfy`): the specification on values. The store is a `map<string, int>` from identifier to balance. `Transfer` either rejects with an error or commits a new map. Conservation, the frame property, non-negativity, the round trip and the examples from the unit tests are proved about it.
- `FundsTransfer` (`funds_transfer.dfy`): the engine itself, in imperative form. `Account` is a class with a constant identifier and a mutable balance. `FundsTransferService` holds the store (`accounts`), the identifiers it asked the store for (`lookups`) and the notification calls it made (`outbox`). Its methods mutate accounts in place and are proved against `Ledger.Transfer`. `SortedSyncMonitors` and the wait-cycle lemma state the lock order.

Amounts are exact integers in the smallest currency unit. The store is
consistent when each identifier maps to the account carrying that
identifier (`Valid`). So one identifier is one account object, and a
self-transfer withdraws from and deposits to the same object.

Points where the code's behaviour may surprise:

- `AccountNotFound` does not say which side was missing; both lookups throw the same exception.
- The engine does not reject a zero or negative amount. Only validation does (`@Min(0)`), and zero passes.
- The sender is always notified before the recipient.
- A self-transfer is not special-cased. Java monitors are reentrant, so taking the same monitor twice is harmless. The balance ends where it started, but the transfer still fails when the balance is below the amount.

## Model

| member | source | states |
|---|---|---|
| `FundsTransfer.FundsTransferService.TransferFunds` | src/main/java/com/db/awmd/challenge/service/FundsTransferService.java:19-27 | The outcome and the store's new balances are exactly those of `Ledger.Transfer` on the old balances. The store is asked for the sender, and for the recipient only when the sender exists. On success the sender is notified (naming the recipient and amount) and then the recipient (naming the sender and amount). On failure nobody is notified. |
| `FundsTransfer.FundsTransferService.DoTransferFunds` | src/main/java/com/db/awmd/challenge/service/FundsTransferService.java:29-37 | The locked section is all-or-nothing. It fails with `InsufficientBalance` exactly when the sender's balance is below the amount, and then neither balance changes. On success the sender loses `amount` and the recipient gains it, and a self-transfer nets to zero. Read through the store, the balances become `Ledger.Transfer`'s. |
| `FundsTransfer.FundsTransferService.GetAccountOrElseThrow` | src/main/java/com/db/awmd/challenge/service/FundsTransferService.java:39-42 | Records one store lookup. Returns the stored account, or `AccountNotFound` when the identifier is absent. |
| `FundsTransfer.SortedSyncMonitors` | src/main/java/com/db/awmd/challenge/service/FundsTransferService.java:44-48 | Returns the same two accounts, the one whose identifier compares lower first. |
| `FundsTransfer.SortedSyncMonitorsSymmetric` | src/main/java/com/db/awmd/challenge/service/FundsTransferService.java:44-48 | For distinct identifiers, swapping sender and recipient gives the same lock order. |
| `FundsTransfer.NoWaitCycle` | src/main/java/com/db/awmd/challenge/service/FundsTransferService.java:30-32 | No ring of transfers can each hold its first monitor while waiting for its second, which the next one holds. This is why the lock order cannot deadlock. |
| `FundsTransfer.WaitChainIncreases` | src/main/java/com/db/awmd/challenge/service/FundsTransferService.java:30-32 | Along any waiting chain, open or closed, every monitor waited for compares above the first one held. |
| `FundsTransfer.FundsTransferService.Withdraw` | src/main/java/com/db/awmd/challenge/service/FundsTransferService.java:50-57 | Debits exactly when balance >= amount. Otherwise it fails with `InsufficientBalance` and writes nothing. |
| `FundsTransfer.FundsTransferService.Deposit` | src/main/java/com/db/awmd/challenge/service/FundsTransferService.java:59-61 | Credits the amount. |
| `FundsTransfer.FundsTransferService.NotifyAboutTransfer` | src/main/java/com/db/awmd/challenge/service/FundsTransferService.java:23-26 | Appends one notification call to the log. |
| `FundsTransfer.FundsTransferService.constructor` | src/main/java/com/db/awmd/challenge/service/FundsTransferService.java:16-17 | A service over a consistent store starts with no lookups and no notifications. |
| `FundsTransfer.Account.constructor` | src/test/java/com/db/awmd/challenge/service/FundsTransferServiceTest.java:64-65 | An account has the given identifier and opening balance. |
| `FundsTransfer.TwoAccountStore` | src/test/java/com/db/awmd/challenge/service/FundsTransferServiceTest.java:83-89 | Builds the tests' store: accounts 1111 and 3333 with the given balances. |
| `FundsTransfer.MissingSenderScenario` | src/test/java/com/db/awmd/challenge/service/FundsTransferServiceTest.java:49-59 | A missing sender gives `AccountNotFound`. Only the sender is looked up, and nobody is notified. |
| `FundsTransfer.InsufficientBalanceScenario` | src/test/java/com/db/awmd/challenge/service/FundsTransferServiceTest.java:63-78 | Balances 1 and 10 with amount 10 give `InsufficientBalance`. Both identifiers are looked up, in the order sender then recipient. The balances stay 1 and 10, and nobody is notified. |
| `FundsTransfer.SuccessfulTransferScenario` | src/test/java/com/db/awmd/challenge/service/FundsTransferServiceTest.java:82-100 | Balances 1 and 10 with amount 1 succeed with 0 and 11. Both identifiers are looked up, sender first. Exactly two notifications are sent: the first to the sender's own account object, naming the recipient and amount, then one to the recipient's account object, naming the sender and amount. |
| `Ledger.Transfer` | src/main/java/com/db/awmd/challenge/service/FundsTransferService.java:19-61 | Commits exactly when both accounts exist and the sender's balance covers the amount. A missing sender or recipient is `AccountNotFound`; otherwise a rejection is `InsufficientBalance`. The store's identifiers never change. |
| `Ledger.TransferMovesAmount` | src/main/java/com/db/awmd/challenge/service/FundsTransferService.java:50-61 | On success the sender's balance drops by exactly `amount` and the recipient's rises by exactly `amount`; a self-transfer leaves the balance unchanged. |
| `Ledger.TransferFrame` | src/main/java/com/db/awmd/challenge/service/FundsTransferService.java:29-37 | Every account other than the sender and the recipient keeps its balance, whether the transfer succeeds or fails. |
| `Ledger.TransferKeepsNonNegative` | src/main/java/com/db/awmd/challenge/service/FundsTransferService.java:50-61 | A non-negative amount leaves a non-negative store non-negative. |
| `Ledger.ValidRequestKeepsNonNegative` | src/main/java/com/db/awmd/challenge/domain/TransferRequest.java:23-25 | A request that passes validation cannot make any balance of a non-negative store negative. |
| `Ledger.NegativeAmountExample` | src/main/java/com/db/awmd/challenge/service/FundsTransferService.java:50-53 | The engine does not check the sign of the amount: transferring -5 between two empty accounts drives the recipient to -5. |
| `Ledger.TotalAt` | src/main/java/com/db/awmd/challenge/service/FundsTransferService.java:29-37 | The sum of the store's balances can be taken starting from any account. |
| `Ledger.TotalUpdate` | src/main/java/com/db/awmd/challenge/service/FundsTransferService.java:50-61 | Overwriting one balance changes the sum by the difference. |
| `Ledger.TransferConserves` | src/main/java/com/db/awmd/challenge/service/FundsTransferService.java:29-37 | Every transfer, successful or not, leaves the sum of all balances unchanged. |
| `Ledger.TransferRoundTrip` | src/test/java/com/db/awmd/challenge/service/FundsTransferServiceTest.java:134-139 | A committed transfer into an account with a non-negative balance (or a self-transfer) is undone by transferring the same amount back. |
| `Ledger.TransferAll` | src/test/java/com/db/awmd/challenge/service/FundsTransferServiceTest.java:113-122 | Running transfers one after another keeps the store's set of identifiers. |
| `Ledger.TransferAllConserves` | src/test/java/com/db/awmd/challenge/service/FundsTransferServiceTest.java:104-125 | Any sequence of transfers conserves the sum of all balances. |
| `Ledger.TransferAllKeepsNonNegative` | src/main/java/com/db/awmd/challenge/service/FundsTransferService.java:50-61 | Any sequence of non-negative transfers keeps a non-negative store non-negative. |
| `Ledger.Alternating` | src/test/java/com/db/awmd/challenge/service/FundsTransferServiceTest.java:134-140 | Defines the tests' request list: `n` transfers of the same amount, alternating between one direction and the other, starting with the first. Its only stated fact is its length. |
| `Ledger.AlternatingReturns` | src/test/java/com/db/awmd/challenge/service/FundsTransferServiceTest.java:124-125 | Provided the first transfer can go through and the recipient's balance is non-negative, an even number of alternating transfers all commit, and every balance returns to where it started. |
| `Ledger.AlternatingExample` | src/test/java/com/db/awmd/challenge/service/FundsTransferServiceTest.java:104-125 | Ten alternating transfers of 1 between two accounts holding 10 each all commit and end at 10 and 10. |
| `Ledger.UnitTransfersCommit` | src/test/java/com/db/awmd/challenge/service/FundsTransferServiceTest.java:104-131 | Any sequence of unit transfers between two distinct accounts, in any order, all commit when each account's balance covers the number of transfers it sends. The final store moves the difference of the two counts from one account to the other. |
| `Ledger.AnyInterleavingExample` | src/test/java/com/db/awmd/challenge/service/FundsTransferServiceTest.java:104-131 | Every interleaving of five transfers of 1 each way between two accounts holding 10, as the concurrent test can produce, commits every transfer and ends at 10 and 10. |
| `Ledger.ShiftShift` | src/main/java/com/db/awmd/challenge/service/FundsTransferService.java:50-61 | Moving `k1` and then `k2` from one account to another is the same as moving `k1 + k2` at once. |
| `Ledger.InsufficientBalanceExample` | src/test/java/com/db/awmd/challenge/service/FundsTransferServiceTest.java:63-78 | Balances 1 and 10 with amount 10: rejected as insufficient. |
| `Ledger.SuccessfulTransferExample` | src/test/java/com/db/awmd/challenge/service/FundsTransferServiceTest.java:82-94 | Balances 1 and 10 with amount 1: committed with 0 and 11. |
| `Ledger.MissingSenderExample` | src/test/java/com/db/awmd/challenge/service/FundsTransferServiceTest.java:49-59 | A missing sender is `AccountNotFound`, whatever the recipient and amount. |
| `JavaStrings.CompareTo` | src/main/java/com/db/awmd/challenge/service/FundsTransferService.java:45 | The identifier comparison is zero exactly when the identifiers are equal. |
| `JavaStrings.CompareToAntisymmetric` | src/main/java/com/db/awmd/challenge/service/FundsTransferService.java:45 | Swapping the operands negates the comparison. |
| `JavaStrings.CompareToTransitive` | src/main/java/com/db/awmd/challenge/service/FundsTransferService.java:45 | The strict order given by the comparison is transitive, so the lock order is global. |
| `JavaStrings.TrimStart` | src/main/java/com/db/awmd/challenge/domain/TransferRequest.java:17-21 | The result is a suffix of the input. It does not start with a character at or below U+0020, and everything dropped is at or below U+0020. |
| `JavaStrings.TrimEnd` | src/main/java/com/db/awmd/challenge/domain/TransferRequest.java:17-21 | The result is a prefix of the input. It does not end with a character at or below U+0020, and everything dropped is at or below U+0020. |
| `JavaStrings.Trim` | src/main/java/com/db/awmd/challenge/domain/TransferRequest.java:17-21 | Defines `String.trim` as `TrimEnd` after `TrimStart`. The result is no longer than the input, and when non-empty it neither starts nor ends with a character at or below U+0020. |
| `JavaStrings.TrimEmptyIff` | src/main/java/com/db/awmd/challenge/domain/TransferRequest.java:17-21 | Trimming leaves nothing exactly when every character is at or below U+0020. |
| `TransferRequests.NotBlank` | src/main/java/com/db/awmd/challenge/domain/TransferRequest.java:17-21 | Defines `@NotBlank`: the value is not null and something is left after `trim()`. |
| `TransferRequests.NotNull` | src/main/java/com/db/awmd/challenge/domain/TransferRequest.java:23 | Defines `@NotNull`: the value is present. |
| `TransferRequests.Min` | src/main/java/com/db/awmd/challenge/domain/TransferRequest.java:24 | Defines `@Min(min)`: a null value passes; otherwise the value is at least `min`. |
| `TransferRequests.TransferRequest.IsValid` | src/main/java/com/db/awmd/challenge/domain/TransferRequest.java:17-25 | Defines validation of the whole request: both identifiers `@NotBlank`, the amount `@NotNull` and `@Min(0)`. |
| `TransferRequests.NotBlankIff` | src/main/java/com/db/awmd/challenge/domain/TransferRequest.java:17-21 | An identifier is non-blank exactly when it is present and holds a character above U+0020. |
| `TransferRequests.ValidIff` | src/main/java/com/db/awmd/challenge/domain/TransferRequest.java:17-25 | A request is valid exactly when both identifiers are non-blank and the amount is present and >= 0. |
| `TransferRequests.ValidIsComplete` | src/main/java/com/db/awmd/challenge/domain/TransferRequest.java:17-25 | A valid request has no null field. |
| `TransferRequests.ZeroAmountAccepted` | src/main/java/com/db/awmd/challenge/domain/TransferRequest.java:23-25 | An amount of zero passes validation, although the constraint's message says "must be positive". |
| `TransferRequests.InvalidExamples` | src/main/java/com/db/awmd/challenge/domain/TransferRequest.java:17-25 | A negative amount, an all-whitespace identifier and a null identifier each fail validation. |

## Left out

- Threads and the `synchronized` monitors are not modelled. The locked section is one atomic step. Only the order in which the monitors would be taken is modelled (`SortedSyncMonitors`), together with the proof that this order admits no waiting cycle. Liveness and the multi-threaded test harness are not sequential properties.
- `FundsTransferController` is not modelled: HTTP binding, logging, and the mapping of the two exceptions to 404 and 400.
- `AccountsService`, the accounts repository and account creation are not modelled. The store is the constant map `accounts`, and an absent key stands for the `null` the store returns.
- Notification delivery is not modelled. Each call is recorded in `outbox` with a structured `Message` (counterparty identifier and amount), not the formatted text.
- `BigDecimal` scale and `equals` are not modelled. Amounts are exact integers.
- Bean-validation machinery (`@Valid`, annotation processing) is not modelled; only the resulting predicate `TransferRequest.IsValid` is. `@NotBlank` is modelled as `trim().length() > 0`, so only characters at or below U+0020 count as blank.
- `JavaStrings.CompareTo` and `JavaStrings.Trim` compare Dafny characters (Unicode scalar values), not Java's UTF-16 code units. They can differ from Java on characters outside the Basic Multilingual Plane.
- `FundsTransfer.FundsTransferService.TransferFunds`: requires every request field to be non-null. A request with a null field never passes validation, and what the unmodelled store or `BigDecimal` would do with a null is not part of this model.
- `FundsTransfer.FundsTransferService.TransferFunds`: conservation of the total and non-negativity are not restated in its contract. They follow from its tie to `Ledger.Transfer` together with `Ledger.TransferConserves` and `Ledger.ValidRequestKeepsNonNegative`.
