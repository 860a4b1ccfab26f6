# Point ledger: a Dafny model

This project models the core of a small point-ledger service. Each user has a
point balance and a history of transactions. Two operations change state:

- `charge` credits a positive amount, at most 10,000 per call, up to an account
  ceiling of 100,000,000.
- `use` debits a positive amount that the balance covers.

The model has four parts:

- `UserPoints` (`user_point.dfy`) is the immutable `UserPoint` record and its
  checked arithmetic, `plusPoint` and `minusPoint`. Each exception message of
  the Java code is one `PointError` constructor. A method that may throw and
  returns a value (`plusPoint`, `minusPoint`, `charge`, `use`) returns a
  `Result`; a `void` method that may throw (`validateCharge`, `validateUse`)
  returns an `Outcome`, either `Pass` or `Fail` with the error.
- `PointTables` (`point_tables.dfy`) stands in for the two storage tables,
  whose code is not part of this model. The balance table is a map from user id
  to record. An unknown id reads as an empty record with balance 0. The history
  table is an append-only sequence. This module also holds the per-user view of
  the history and the signed sum of a history.
- `PointValidation` (`point_validation.dfy`) is the second copy of the rules in
  `PointValidationService`. It is proved to agree with `UserPoint` error for
  error, and its trailing ceiling and negativity checks are proved unreachable.
- `PointService` (`point_service.dfy`) is `DefaultPointService` as a class with
  two fields, the balance map and the history sequence. `Charge` and `Use` read
  the stored record, compute through `PlusPoint`/`MinusPoint`, write the balance
  and append one entry. They are proved to keep the service invariant `Valid()`:
  - every stored record sits under its own user id as key;
  - every stored balance lies in `[0, 100,000,000]`;
  - every history amount is positive;
  - every user's balance equals the user's charges minus the user's uses.
- `PointScenarios` (`point_scenarios.dfy`) replays the two concurrency tests
  one call at a time: ten charges of 100, and a charge of 1000 followed by ten
  uses of 100. Each is proved in general within the limits: for the charges,
  any count `n` and amount `a` with `0 < a <= 10,000` and `n * a <= 100,000,000`;
  for the charge-then-uses test, any positive `a` with `0 < n * a <= 10,000`.

The code has two distinct non-positive-amount messages, one for charge
(`UserPoint.java:18`) and one for use (`UserPoint.java:32`), so the model has
`NonPositiveCharge` and `NonPositiveUse`.

## Model

| member | source | states |
|---|---|---|
| `UserPoints.PlusPoint` | src/main/java/io/hhplus/tdd/point/UserPoint.java:16-28 | a non-positive amount fails with the non-positive-charge error; otherwise an amount over 10,000 fails with the per-charge-limit error, whatever the balance; otherwise a sum over 100,000,000 fails with the ceiling error; otherwise the result is exactly `point + amount`, lies in `(point, 100,000,000]` and stays in range when `point` was in range |
| `UserPoints.MinusPoint` | src/main/java/io/hhplus/tdd/point/UserPoint.java:30-39 | a non-positive amount fails with the non-positive-use error; otherwise an amount above the balance fails with the insufficient-balance error; otherwise the result is exactly `point - amount` and lies in `[0, point)` |
| `UserPoints.Empty` | src/main/java/io/hhplus/tdd/point/UserPoint.java:12-14 | the empty record carries the given id, a zero (so in-range) balance and the caller's clock reading |
| `PointTables.SelectById` | src/main/java/io/hhplus/tdd/point/DefaultPointService.java:58 | the `selectById` read made by every operation (also lines 35 and 84, and `PointValidationService.java:25, 36`): a stored user reads as the stored record, an unknown user as `UserPoint.empty(id)`, and the balance read is the table's balance or 0. The unknown-user case is an assumption about `UserPointTable`, which is not part of this model |
| `UserPoints.UseUndoesCharge` | src/main/java/io/hhplus/tdd/point/UserPoint.java:16-39 | a successful charge followed by a use of the same amount restores a non-negative balance |
| `UserPoints.ChargeUndoesUse` | src/main/java/io/hhplus/tdd/point/UserPoint.java:16-39 | a successful use followed by a charge of the same amount restores the balance, when the amount is within the per-charge limit and the balance within the ceiling |
| `PointTables.ForUser` | src/main/java/io/hhplus/tdd/point/DefaultPointService.java:38-41 | a user's history is no longer than the whole history and holds only that user's entries |
| `PointTables.ForUserMembers` | src/main/java/io/hhplus/tdd/point/DefaultPointService.java:38-41 | an entry is in a user's history exactly when it is in the whole history and belongs to that user |
| `PointTables.ForUserAppend` | src/main/java/io/hhplus/tdd/point/DefaultPointService.java:62 | appending an entry extends its own user's history at the end and leaves every other user's history as it was |
| `PointTables.NetPointsAppend` | src/main/java/io/hhplus/tdd/point/DefaultPointService.java:88 | appending an entry moves the charges-minus-uses sum by that entry's signed amount |
| `PointValidation.ValidateCharge` | src/main/java/io/hhplus/tdd/point/PointValidationService.java:18-30 | passes exactly when `plusPoint` on the stored record succeeds, and fails with the same error otherwise; rejects a non-positive amount or an amount over 10,000 whatever the table holds; fails with the ceiling error exactly when the stored balance plus a valid amount passes 100,000,000 |
| `PointValidation.ValidateUse` | src/main/java/io/hhplus/tdd/point/PointValidationService.java:32-41 | passes exactly when `minusPoint` on the stored record succeeds, and fails with the same error otherwise; rejects a non-positive amount whatever the table holds; fails with the insufficient-balance error exactly when the stored balance is below a positive amount |
| `PointValidation.ChargeCeilingCheckUnreachable` | src/main/java/io/hhplus/tdd/point/PointValidationService.java:26-28 | whenever `plusPoint` returns, its result is not above the service's own ceiling, so the explicit ceiling check never fires |
| `PointValidation.UseNegativityCheckUnreachable` | src/main/java/io/hhplus/tdd/point/PointValidationService.java:37-39 | whenever `minusPoint` returns, its result is not negative, so the explicit negativity check never fires |
| `PointService.DefaultPointService.constructor` | src/main/java/io/hhplus/tdd/point/DefaultPointService.java:25-31 | a service over empty tables satisfies the service invariant |
| `PointService.DefaultPointService.GetPointByUserId` | src/main/java/io/hhplus/tdd/point/DefaultPointService.java:33-36 | returns the stored record, or an empty one for an unknown user; the record carries the asked id, an in-range balance, and that balance equals the user's charges minus uses; nothing changes |
| `PointService.DefaultPointService.GetPointHistoryByUserId` | src/main/java/io/hhplus/tdd/point/DefaultPointService.java:38-41 | returns the user's entries in append order, each of that user and with a positive amount, whose charges minus uses equal the user's balance; nothing changes |
| `PointService.DefaultPointService.LedgerAfterCommitAt` | src/main/java/io/hhplus/tdd/point/DefaultPointService.java:58-62 | after one balance write and the matching history append, one user's balance still equals that user's charges minus uses |
| `PointService.DefaultPointService.LedgerAfterCommit` | src/main/java/io/hhplus/tdd/point/DefaultPointService.java:84-88 | the same, for every user at once |
| `PointService.DefaultPointService.Charge` | src/main/java/io/hhplus/tdd/point/DefaultPointService.java:49-69 | succeeds exactly when `plusPoint` on the stored record does. On success: the user's record becomes old balance + amount and is returned; no other key changes; exactly one `(user, amount, CHARGE)` entry is appended. On rejection: the same error, and neither table changes. The invariant (range, positive amounts, balance = charges - uses) is kept |
| `PointService.DefaultPointService.Use` | src/main/java/io/hhplus/tdd/point/DefaultPointService.java:76-95 | succeeds exactly when `minusPoint` on the stored record does. On success: the record becomes old balance - amount; no other key changes; exactly one `(user, amount, USE)` entry is appended. On rejection: the same error, and neither table changes. The invariant is kept |
| `PointScenarios.ChargeRepeatedly` | src/test/java/io/hhplus/tdd/point/PointServiceConcurrencyTest.java:47-75 | for `0 < a <= 10,000` and `n * a <= 100,000,000`, `n` charges of `a` to a fresh user all succeed, leave `n * a` points and leave exactly `n` CHARGE entries in submission order |
| `PointScenarios.UseEach` | src/test/java/io/hhplus/tdd/point/PointServiceConcurrencyTest.java:96-117 | `n` uses of `a` that the balance covers all succeed; the balance drops by `n * a`; the user's history gains exactly `n` USE entries in submission order after the earlier ones; every other user's balance stays the same |
| `PointScenarios.UseRepeatedly` | src/test/java/io/hhplus/tdd/point/PointServiceConcurrencyTest.java:87-117 | for a positive `a` with `0 < n * a <= 10,000` (one charge within the per-charge limit), a charge of `n * a` followed by `n` uses of `a` leaves 0 points and `n + 1` entries: the charge, then the uses in submission order |
| `PointScenarios.ChargeConcurrently` | src/test/java/io/hhplus/tdd/point/PointServiceConcurrencyTest.java:45-75 | ten charges of 100 give 1000 points and ten CHARGE entries of 100 |
| `PointScenarios.UseConcurrently` | src/test/java/io/hhplus/tdd/point/PointServiceConcurrencyTest.java:85-117 | a charge of 1000 and ten uses of 100 give 0 points and eleven entries |

## Left out

- The per-user fair `ReentrantLock` map and the lock/unlock in `finally`
  (`DefaultPointService.java:20, 52-53, 65, 80-81, 91`). Mutual exclusion and
  FIFO fairness are properties of concurrent runs. The model is single-threaded,
  and within one call the lock only serialises the steps that are modelled.
- The tests' checks that history sorted by timestamp equals history as stored.
  These depend on thread scheduling and the real clock. In the scenarios the
  clock reading of each call is simply its position.
- `System.currentTimeMillis()`. Each operation takes one `now` parameter. It is
  used for the empty record of an unknown user, the stamp of the written record
  and the stamp of the history entry. Only the history stamp is read in code
  that is part of this model (`DefaultPointService.java:62, 88`). The written
  record's stamp comes from `insertOrUpdate` and the empty record from
  `selectById`, and neither table is part of this model, so how often the
  real system reads the clock there is not known.
- `PlusPoint`: does not model 64-bit `long` wrap-around of `point + amount`.
  Integers are unbounded here. Every stored balance is in `[0, 100,000,000]`,
  and the amount reaching the addition is at most 10,000, so the addition
  cannot overflow on records the service reads.
- `MinusPoint`: does not model 64-bit `long` wrap-around of `point - amount`.
  `minusPoint` has no per-use cap, so any positive `long` amount reaches the
  subtraction. But a stored balance is at least 0 and the amount is at least 1
  and at most `2^63 - 1`, so `point - amount` is at least `-(2^63 - 1)`, which
  is above `Long.MIN_VALUE`. The subtraction cannot overflow on records the
  service reads.
- The internals of `UserPointTable` and `PointHistoryTable`. These tables are
  not part of this model. A missing user reads as an empty record, which
  assumes the table behaves that way. The history entry's id assignment is
  not modelled, so entries carry no id.
- `DefaultPointService.constructor`: starts from empty tables rather than
  injected ones that may already hold data. This is what lets the invariant
  "balance = charges - uses" hold from the start.
- A crash between the balance write and the history append. The model has no
  faults, so the two writes of a successful call always happen together.
- `PointController` (HTTP routing; its `use` endpoint is a stub),
  `ApiControllerAdvice` (maps every error to HTTP 500), the `PointService`
  interface and all logging.
