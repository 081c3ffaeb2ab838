# Moneybox withdrawal and transfer rules, in Dafny

This project models the domain-rule core of a small money-movement service.
An `Account` keeps three running totals: `Balance`, `Withdrawn` and `PaidIn`.
It exposes four threshold predicates and two unvalidated mutators. Two use
cases sequence them:

- `WithdrawMoney.Execute`: lookup, balance check, low-funds notice, withdraw, persist.
- `TransferMoney.Execute`: two lookups, source balance check, source low-funds
  notice, destination pay-in check, destination near-limit notice, withdraw and
  deposit, persist the source and then the destination.

Modules, one per source file plus one for the collaborators:

- `Domain` (`Domain.dfy`): the constants `PayInLimit = 4000`,
  `PayInLimitThreshold = 500` and `LowFundsThreshold = 500`; the `Account`
  class; the value type `Totals`, which holds the three totals. The class's
  predicates are defined on `Totals`, so the use-case specifications use the
  same definitions. `Replay` applies a sequence of mutator calls to a `Totals`
  value.
- `Services` (`Services.dfy`): the account repository and the notification
  service. Each is a class that appends its calls to one shared `Trace`, an
  append-only `seq<Event>`. This includes the runtime order between the two
  collaborators. `Update` records the totals it was asked to persist. `Outcome`
  stands for the exceptions, as values.
- `WithdrawMoneyFeature` and `TransferMoneyFeature`: each has a pure
  specification, `WithdrawRun` or `TransferRun`. It maps the accounts' state
  at entry to an outcome and the exact list of collaborator calls. Each also has
  the lemmas about that specification, and the imperative `Execute` method,
  whose postcondition ties it to the specification and to the new state of
  every account. The transfer's `Execute` keeps the three sections of the
  source method as three methods of its own: `CheckSource` (the source's
  balance check and low-funds notice), `CheckDestination` (the destination's
  pay-in check and warning) and `Commit` (the two mutators and the two
  updates). `TransferRun` is composed in the same way, from `SourcePhase`,
  `DestinationPhase` and `Settle`.

Amounts are integers in minor currency units. The four predicates are Dafny
`predicate`s, so by construction they change no field.

Three points deserve a note:

- An absent owner. The code reads `User.Email` with no null check
  (WithdrawMoney.cs:29, TransferMoney.cs:30 and 41) and aborts there. The model
  ends with `MissingUser` and keeps the events already recorded.
- The sign of the amount. Nothing checks it. In a transfer, a negative amount
  moves money from the destination to the source, and the destination's balance
  is never checked (`TransferAcceptsNegativeAmount`). So the paid-in total is
  only monotone for non-negative deposits (`PaidInMonotone`,
  `NegativeDepositLowersPaidIn`).
- `HasLowFunds` and the account tests. The two predicate tests
  (AccountTests.cs:30, 47) assert `expectedResult.ShouldBe(expectedResult)`,
  which always holds, and their `HasLowFunds` cases, 600 → true and 100 →
  false, contradict the code. The model follows the code: `Balance < 500`. The
  mutator tests (AccountTests.cs:50-90) assert real values, and the model
  matches them.

## Model

| member | source | states |
|---|---|---|
| `Domain.Account.constructor` | src/Moneybox.App/Domain/Account.cs:13-21 | an account holds an identifier, an optional owner and the three totals it is given |
| `Domain.Account.HasSufficientBalance` | src/Moneybox.App/Domain/Account.cs:23-26 | exactly a balance strictly greater than the amount |
| `Domain.Account.HasLowFunds` | src/Moneybox.App/Domain/Account.cs:28-31 | exactly a balance strictly below 500 |
| `Domain.Account.HasSufficientPayInCapacity` | src/Moneybox.App/Domain/Account.cs:33-36 | exactly a paid-in total plus the amount strictly below 4000 |
| `Domain.Account.IsNearPayInLimit` | src/Moneybox.App/Domain/Account.cs:38-41 | exactly a paid-in total plus the amount strictly above 4000 - 500 |
| `Domain.Totals.AfterWithdrawal` | src/Moneybox.App/Domain/Account.cs:43-47 | a withdrawal leaves the paid-in total alone and moves the balance and the withdrawn counter together, so `Balance - Withdrawn` is kept |
| `Domain.Totals.AfterDeposit` | src/Moneybox.App/Domain/Account.cs:49-53 | a deposit leaves the withdrawn counter alone and moves the balance and the paid-in total together, so `Balance - PaidIn` is kept |
| `Domain.Account.WithdrawFunds` | src/Moneybox.App/Domain/Account.cs:43-47 | `Balance` and `Withdrawn` each drop by the amount with no precondition (the balance may go negative); `PaidIn`, `Id` and `User` are unchanged |
| `Domain.Account.DepositFunds` | src/Moneybox.App/Domain/Account.cs:49-53 | `Balance` and `PaidIn` each rise by the amount; `Withdrawn`, `Id` and `User` are unchanged |
| `Domain.PredicateBoundaries` | src/Moneybox.App/Domain/Account.cs:23-41 | every predicate is strict: a balance equal to the amount is not sufficient, a balance of exactly 500 is not low, a paid-in sum of exactly 4000 has no capacity, and a sum of exactly 3500 is not near the limit |
| `Domain.PredicatesForeseeMutation` | src/Moneybox.App/Domain/Account.cs:23-53 | a sufficient balance is exactly one that stays strictly positive after the withdrawal; capacity is exactly a paid-in total still under 4000 after the deposit; near the limit is exactly a paid-in total above 3500 after it |
| `Domain.WithdrawThenDeposit` | src/Moneybox.App/Domain/Account.cs:43-53 | withdrawing and then depositing one amount restores only the balance; `Withdrawn` stays shifted by minus the amount and `PaidIn` by plus the amount |
| `Domain.ReplayTotals` | src/Moneybox.App/Domain/Account.cs:43-53 | after any sequence of mutator calls, each counter has moved by the sum of its own calls, the balance by deposits minus withdrawals, and `Balance - Withdrawn - PaidIn` is unchanged |
| `Domain.PaidInMonotone` | src/Moneybox.App/Domain/Account.cs:49-53 | the paid-in total never decreases over a sequence of calls in which no deposit is negative |
| `Domain.NegativeDepositLowersPaidIn` | src/Moneybox.App/Domain/Account.cs:49-53 | a deposit does not check its sign, so a negative one lowers the paid-in total |
| `Services.AccountRepository.GetAccountById` | src/Moneybox.App/Features/WithdrawMoney.cs:20 | a lookup returns the account the identifier resolves to, or none, and is recorded in the trace |
| `Services.AccountRepository.Update` | src/Moneybox.App/Features/TransferMoney.cs:47-48 | persisting records the account's identifier and its totals at that moment in the trace |
| `Services.NotificationService.NotifyFundsLow` | src/Moneybox.App/Features/WithdrawMoney.cs:29 | a low-funds notice to an address is recorded in the trace |
| `Services.NotificationService.NotifyApproachingPayInLimit` | src/Moneybox.App/Features/TransferMoney.cs:41 | a pay-in warning to an address is recorded in the trace |
| `WithdrawMoneyFeature.WithdrawRun` | src/Moneybox.App/Features/WithdrawMoney.cs:18-36 | every run starts with the one lookup; it fails exactly when that lookup is the only call, and succeeds exactly when the last call is an update |
| `WithdrawMoneyFeature.WithdrawMoney.constructor` | src/Moneybox.App/Features/WithdrawMoney.cs:12-16 | the use case keeps the repository and the notification service it is given |
| `WithdrawMoneyFeature.WithdrawMoney.Execute` | src/Moneybox.App/Features/WithdrawMoney.cs:18-36 | the outcome and the calls appended to the trace are those of `WithdrawRun` on the account's state at entry; only the looked-up account changes, by exactly one withdrawal of the amount, and only on success; no `Id` or `User` changes |
| `WithdrawMoneyFeature.WithdrawSucceedsWhen` | src/Moneybox.App/Features/WithdrawMoney.cs:20-30 | the withdrawal succeeds exactly when the account exists, its balance strictly exceeds the amount, and a low account has an owner; it fails with `InsufficientFunds` exactly when it exists and its balance is at most the amount |
| `WithdrawMoneyFeature.WithdrawFailureHasNoEffect` | src/Moneybox.App/Features/WithdrawMoney.cs:20-30 | on every failure the only call is the single lookup: no notice and no update |
| `WithdrawMoneyFeature.WithdrawSuccessPersistsOnce` | src/Moneybox.App/Features/WithdrawMoney.cs:20-34 | on success there is one lookup and one update, and the update is last; it persists a balance and a withdrawn counter each lowered by the amount, the same paid-in total, and a strictly positive balance |
| `WithdrawMoneyFeature.WithdrawNotifiesLowFunds` | src/Moneybox.App/Features/WithdrawMoney.cs:27-30 | the low-funds notice to the owner is sent once exactly when the withdrawal succeeds from a pre-withdrawal balance below 500, and never otherwise; no pay-in warning is ever sent |
| `WithdrawMoneyFeature.WithdrawOrder` | src/Moneybox.App/Features/WithdrawMoney.cs:20-34 | a successful withdrawal makes the lookup, then the optional notice, then the update; no notice follows an update |
| `WithdrawMoneyFeature.WithdrawScenarios` | src/MoneyBox.Tests/FeaturesTests/WithdrawMoneyTests.cs:27-86 | the three tested cases: 500 draws 50 with one update and no notice; 450 draws 50 with one notice; 25 cannot draw 50 and nothing is updated; besides them, 1000 draws 50 and ends at 950 with -50 withdrawn, and 50 cannot draw 50 |
| `TransferMoneyFeature.Settle` | src/Moneybox.App/Features/TransferMoney.cs:44-45 | the source's withdrawn counter drops by the amount and the destination's paid-in total rises by it; distinct accounts conserve the sum of their balances; one account on both sides keeps its balance and holds both changes |
| `TransferMoneyFeature.SourcePhase` | src/Moneybox.App/Features/TransferMoney.cs:23-31 | its outcome is `Ok`, `InsufficientFunds` or `MissingUser`: `InsufficientFunds` exactly when the balance is at most the amount; `MissingUser` exactly when the check passes on a balance below 500 with no owner; the low-funds notice to the owner is its only possible call, made exactly when it goes on from a balance below 500 |
| `TransferMoneyFeature.DestinationPhase` | src/Moneybox.App/Features/TransferMoney.cs:34-42 | its outcome is `Ok`, `PayInLimitReached` or `MissingUser`: `PayInLimitReached` exactly when the paid-in total plus the amount is at least 4000; `MissingUser` exactly when it is under 4000 but above 3500 with no owner; the pay-in warning to the owner is its only possible call, made exactly when it goes on above 3500 |
| `TransferMoneyFeature.TransferRun` | src/Moneybox.App/Features/TransferMoney.cs:18-49 | every run starts with the source lookup, and it succeeds exactly when its last call is an update |
| `TransferMoneyFeature.TransferMoney.constructor` | src/Moneybox.App/Features/TransferMoney.cs:12-16 | the use case keeps the repository and the notification service it is given |
| `TransferMoneyFeature.TransferMoney.Execute` | src/Moneybox.App/Features/TransferMoney.cs:18-49 | the outcome and the calls appended to the trace are those of `TransferRun` on the two accounts' states at entry; on success the two accounts end as `Settle` says (also when both are one object); on failure neither changes; every other account in the repository keeps its identifier, owner and totals |
| `TransferMoneyFeature.TransferMoney.CheckSource` | src/Moneybox.App/Features/TransferMoney.cs:23-31 | the outcome and the calls made are those of `SourcePhase` on the source's state: `InsufficientFunds` with no call unless the balance strictly exceeds the amount, then the low-funds notice to the owner when the balance is below 500 (`MissingUser` if there is none); no account changes |
| `TransferMoneyFeature.TransferMoney.CheckDestination` | src/Moneybox.App/Features/TransferMoney.cs:34-42 | the outcome and the calls made are those of `DestinationPhase` on the destination's state: `PayInLimitReached` with no call unless the paid-in total plus the amount is under 4000, then the pay-in warning to the owner when it exceeds 3500 (`MissingUser` if there is none); no account changes |
| `TransferMoneyFeature.TransferMoney.Commit` | src/Moneybox.App/Features/TransferMoney.cs:44-48 | the source is withdrawn from and the destination deposited into, as `Settle` says also when both are one object; then the repository receives the source's and the destination's new totals, in that order; no `Id` or `User` changes |
| `TransferMoneyFeature.TransferCounts` | src/Moneybox.App/Features/TransferMoney.cs:20-48 | the number of calls of each kind: two lookups once the source resolves; the low-funds notice exactly when the source check passed on a low balance, whatever the destination check then decides; the pay-in warning only on success; two updates exactly on success |
| `TransferMoneyFeature.TransferLooksUpBothFirst` | src/Moneybox.App/Features/TransferMoney.cs:20-21 | source lookup, then destination lookup, before any check; every path records exactly these two lookups, except when the source does not resolve |
| `TransferMoneyFeature.TransferSucceedsWhen` | src/Moneybox.App/Features/TransferMoney.cs:20-42 | success, `InsufficientFunds` and `PayInLimitReached` each hold exactly under their own conjunction of the source balance check, the destination capacity check and owner presence |
| `TransferMoneyFeature.TransferInsufficientFunds` | src/Moneybox.App/Features/TransferMoney.cs:23-26 | an insufficient source balance leaves only the two lookups in the trace |
| `TransferMoneyFeature.TransferPayInLimitReached` | src/Moneybox.App/Features/TransferMoney.cs:28-37 | a destination without capacity leaves the two lookups and then the source's low-funds notice if the source was low; no update and no pay-in warning |
| `TransferMoneyFeature.TransferFailureNoUpdate` | src/Moneybox.App/Features/TransferMoney.cs:23-48 | no failed transfer persists anything or sends a pay-in warning |
| `TransferMoneyFeature.TransferSuccessMovesAmount` | src/Moneybox.App/Features/TransferMoney.cs:44-48 | for distinct accounts, the last two calls update the source and then the destination, once each; the source's balance and withdrawn counter drop by the amount, the destination's balance and paid-in total rise by it, the other counters are unchanged, the sum of the two balances is conserved, and the source balance stays positive |
| `TransferMoneyFeature.TransferToSameAccount` | src/Moneybox.App/Features/TransferMoney.cs:44-48 | a transfer from an account to itself leaves its balance unchanged, lowers `Withdrawn` and raises `PaidIn` by the amount, and persists that one state twice; the whole run is the two lookups, then the notices of `SourcePhase` and `DestinationPhase` on that account, then the two updates |
| `TransferMoneyFeature.TransferNotifiesNearLimit` | src/Moneybox.App/Features/TransferMoney.cs:39-42 | the pay-in warning to the destination's owner is sent once exactly when the transfer succeeds and the destination's paid-in total plus the amount exceeds 3500 |
| `TransferMoneyFeature.TransferNotifiesLowFunds` | src/Moneybox.App/Features/TransferMoney.cs:28-31 | the low-funds notice to the source's owner is sent once exactly when both accounts resolve and the source check passed on a pre-transfer balance below 500; it is the third call |
| `TransferMoneyFeature.TransferOrder` | src/Moneybox.App/Features/TransferMoney.cs:28-48 | no notice follows an update, and the low-funds notice precedes the pay-in warning |
| `TransferMoneyFeature.TransferScenarios` | src/MoneyBox.Tests/FeaturesTests/TransferMoneyTests.cs:26-183 | the tested cases, each of 50: from a balance of 1000 to an account with a balance of 1000 and nothing paid in, ending at 950 and 1050 with both persisted; from a balance of 25, refused; to a destination that has paid in 3960, refused with no update; from a source at 400, warned once; to destinations that have paid in 3550 and 3475, whose owner is warned as the third call before both updates |
| `TransferMoneyFeature.TransferAcceptsNegativeAmount` | src/Moneybox.App/Features/TransferMoney.cs:23-45 | a transfer of -50 succeeds, takes the destination's balance below zero and lowers its paid-in total |

## Left out

- Decimal arithmetic. The source uses C# `decimal`; the model uses unbounded integers in minor units. Precision, rounding and `OverflowException` are not modelled.
- Storage and delivery. How the repository stores accounts and how notices are delivered are not modelled. The repository is a fixed map from identifiers to account objects, and every collaborator call is one trace event. A failed lookup is one outcome, `AccountNotFound`, raised by `GetAccountById` itself; so a transfer whose source does not resolve makes no second lookup. If the repository returned null instead, the code would look up the destination first and fail at the null dereference on TransferMoney.cs:23. Failures of persistence or delivery are not modelled.
- IAccountRepository, INotificationService and User. Their sources are not part of this model. A user is known only by the `Email` the notices use.
- Identity plumbing. Identifier generation is left out, and an identifier is an opaque natural number. Exception messages are left out.
- Concurrency. Concurrent invocations are not modelled, because the source has no locking.
- Mutations as events. The account mutators are not trace events. The model places them after every notice by the statement order of `Execute`. It shows them through the `Updated` events and the final account states.
