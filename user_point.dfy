/**
 * The `UserPoint` record: a user's id, point balance and last-update stamp,
 * with the two checked balance operations `plusPoint` (charge) and
 * `minusPoint` (use). Each Java `IllegalArgumentException` becomes one
 * `PointError` constructor, one per distinct message.
 */
module UserPoints {

  /** Largest balance an account may hold (`USER_MAX_POINT`). */
  const UserMaxPoint: int := 100_000_000

  /** Largest amount a single charge may add (`ONCE_CHARGE_MAX_POINT`). */
  const OnceChargeMaxPoint: int := 10_000

  /** One constructor per distinct exception message of the source. */
  datatype PointError =
    | NonPositiveCharge       // a charge of zero or less
    | ExceedsOnceChargeLimit  // a charge above the per-charge limit
    | ExceedsUserMaxPoint     // a charge that would pass the account ceiling
    | NonPositiveUse          // a use of zero or less
    | InsufficientBalance     // a use larger than the balance

  /** A value, or the error a Java method would have thrown. */
  datatype Result<T> = Ok(value: T) | Err(error: PointError)

  /** Success or the error of a Java `void` method that may throw. */
  datatype Outcome = Pass | Fail(error: PointError)

  /** The immutable record; `updateMillis` is an opaque clock reading. */
  datatype UserPoint = UserPoint(id: int, point: int, updateMillis: int)

  /** The account bound that every stored balance keeps. */
  predicate InRange(point: int) {
    0 <= point <= UserMaxPoint
  }

  /** `UserPoint.empty`: a zero balance stamped with the caller's clock reading. */
  function Empty(id: int, now: int): (r: UserPoint)
    ensures r.id == id && r.point == 0 && InRange(r.point) && r.updateMillis == now
  {
    UserPoint(id, 0, now)
  }

  /**
   * `plusPoint`: the new balance after charging `amount`, or the first
   * rejection in the order non-positive, per-charge limit, account ceiling.
   */
  function PlusPoint(u: UserPoint, amount: int): (r: Result<int>)
    // each rejection, exactly when it is the first one that applies
    ensures r == Err(NonPositiveCharge) <==> amount <= 0
    ensures r == Err(ExceedsOnceChargeLimit) <==> amount > OnceChargeMaxPoint
    ensures r == Err(ExceedsUserMaxPoint) <==>
      0 < amount <= OnceChargeMaxPoint && u.point + amount > UserMaxPoint
    // success: exactly the sum, strictly above the old balance, within the ceiling
    ensures r.Ok? <==> 0 < amount <= OnceChargeMaxPoint && u.point + amount <= UserMaxPoint
    ensures r.Ok? ==> r.value == u.point + amount && u.point < r.value <= UserMaxPoint
    ensures r.Ok? && InRange(u.point) ==> InRange(r.value)
  {
    if amount <= 0 then Err(NonPositiveCharge)
    else if amount > OnceChargeMaxPoint then Err(ExceedsOnceChargeLimit)
    else
      var amountToSave := u.point + amount;
      if amountToSave > UserMaxPoint then Err(ExceedsUserMaxPoint)
      else Ok(amountToSave)
  }

  /**
   * `minusPoint`: the new balance after using `amount`, or the first
   * rejection in the order non-positive, insufficient balance.
   */
  function MinusPoint(u: UserPoint, amount: int): (r: Result<int>)
    ensures r == Err(NonPositiveUse) <==> amount <= 0
    ensures r == Err(InsufficientBalance) <==> 0 < amount && u.point < amount
    ensures r.Ok? <==> 0 < amount <= u.point
    ensures r.Ok? ==> r.value == u.point - amount && 0 <= r.value < u.point
    ensures r.Ok? && InRange(u.point) ==> InRange(r.value)
  {
    if amount <= 0 then Err(NonPositiveUse)
    else
      var amountToSave := u.point - amount;
      if amountToSave < 0 then Err(InsufficientBalance)
      else Ok(amountToSave)
  }

  /**
   * A charge undone by a use of the same amount gives back the old balance,
   * provided the old balance was not negative.
   */
  lemma UseUndoesCharge(u: UserPoint, amount: int, now: int)
    requires PlusPoint(u, amount).Ok? && 0 <= u.point
    ensures MinusPoint(UserPoint(u.id, PlusPoint(u, amount).value, now), amount) == Ok(u.point)
  {
  }

  /**
   * A use undone by a charge of the same amount gives back the old balance,
   * provided the amount is within the per-charge limit and the old balance
   * within the ceiling.
   */
  lemma ChargeUndoesUse(u: UserPoint, amount: int, now: int)
    requires MinusPoint(u, amount).Ok?
    requires amount <= OnceChargeMaxPoint && u.point <= UserMaxPoint
    ensures PlusPoint(UserPoint(u.id, MinusPoint(u, amount).value, now), amount) == Ok(u.point)
  {
  }
}
