/**
 * `PointValidationService`: a second copy of the charge and use rules that
 * first reads the stored record, then defers to `plusPoint` / `minusPoint`,
 * and finally repeats their ceiling and negativity checks. It never writes.
 */
module PointValidation {
  import opened UserPoints
  import opened PointTables

  // The service keeps its own copies of the two limits.
  const UserMaxPoint: int := 100_000_000
  const OnceChargeMaxPoint: int := 10_000

  /**
   * `validateCharge`: the amount checks need no table; only then is the
   * stored record read and handed to `plusPoint`, whose rejection is
   * propagated. The final ceiling check is kept as written.
   */
  function ValidateCharge(table: map<int, UserPoint>, userId: int, amount: int, now: int): (r: Outcome)
    // agrees with plusPoint on the stored record, error for error
    ensures r == Pass <==> PlusPoint(SelectById(table, userId, now), amount).Ok?
    ensures r.Fail? ==> r.error == PlusPoint(SelectById(table, userId, now), amount).error
    // the amount-only rejections, whatever the table holds
    ensures amount <= 0 ==> r == Fail(NonPositiveCharge)
    ensures amount > OnceChargeMaxPoint ==> r == Fail(ExceedsOnceChargeLimit)
    ensures r == Fail(ExceedsUserMaxPoint) <==>
      0 < amount <= OnceChargeMaxPoint && PointOf(table, userId) + amount > UserMaxPoint
  {
    if amount <= 0 then Fail(NonPositiveCharge)
    else if amount > OnceChargeMaxPoint then Fail(ExceedsOnceChargeLimit)
    else
      var userPoint := SelectById(table, userId, now);
      match PlusPoint(userPoint, amount)
      case Err(e) => Fail(e)
      case Ok(amountToSave) =>
        if amountToSave > UserMaxPoint then Fail(ExceedsUserMaxPoint) else Pass
  }

  /**
   * `validateUse`: the amount check first, then `minusPoint` on the stored
   * record, then the negativity check kept as written.
   */
  function ValidateUse(table: map<int, UserPoint>, userId: int, amount: int, now: int): (r: Outcome)
    ensures r == Pass <==> MinusPoint(SelectById(table, userId, now), amount).Ok?
    ensures r.Fail? ==> r.error == MinusPoint(SelectById(table, userId, now), amount).error
    ensures amount <= 0 ==> r == Fail(NonPositiveUse)
    ensures r == Fail(InsufficientBalance) <==> 0 < amount && PointOf(table, userId) < amount
  {
    if amount <= 0 then Fail(NonPositiveUse)
    else
      var userPoint := SelectById(table, userId, now);
      match MinusPoint(userPoint, amount)
      case Err(e) => Fail(e)
      case Ok(amountToSave) =>
        if amountToSave < 0 then Fail(InsufficientBalance) else Pass
  }

  /**
   * The ceiling check after `plusPoint` never fires: whenever `plusPoint`
   * returns, its result is within the service's own `USER_MAX_POINT`.
   */
  lemma ChargeCeilingCheckUnreachable(u: UserPoint, amount: int)
    requires PlusPoint(u, amount).Ok?
    ensures !(PlusPoint(u, amount).value > UserMaxPoint)
  {
  }

  /**
   * The negativity check after `minusPoint` never fires: whenever
   * `minusPoint` returns, its result is non-negative.
   */
  lemma UseNegativityCheckUnreachable(u: UserPoint, amount: int)
    requires MinusPoint(u, amount).Ok?
    ensures !(MinusPoint(u, amount).value < 0)
  {
  }
}
