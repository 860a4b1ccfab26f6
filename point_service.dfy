/**
 * `DefaultPointService` for a single thread: each charge or use reads the
 * user's stored record, computes the new balance through `UserPoint`,
 * writes the balance table and then appends one history entry. The per-user
 * lock only serialises these same steps, so it is not modelled.
 */
module PointService {
  import opened UserPoints
  import opened PointTables

  class DefaultPointService {
    /** `UserPointTable`: user id to stored record. */
    var userPointTable: map<int, UserPoint>
    /** `PointHistoryTable`: every entry, in append order. */
    var pointHistoryTable: seq<PointHistory>

    /** The balance the service reports for `userId`. */
    function Balance(userId: int): int
      reads this
    {
      PointOf(userPointTable, userId)
    }

    /**
     * The service invariant: every stored record sits under its own key and
     * within the account bound, every history entry carries a positive
     * amount, and every user's balance equals the charges minus the uses in
     * that user's history.
     */
    ghost predicate Valid()
      reads this
    {
      (forall id :: id in userPointTable ==>
         userPointTable[id].id == id && InRange(userPointTable[id].point)) &&
      (forall i :: 0 <= i < |pointHistoryTable| ==> pointHistoryTable[i].amount > 0) &&
      (forall id :: Balance(id) == NetPoints(ForUser(pointHistoryTable, id)))
    }

    /** A service over two empty tables (see "Left out" in the README). */
    constructor ()
      ensures Valid()
      ensures userPointTable == map[] && pointHistoryTable == []
    {
      userPointTable := map[];
      pointHistoryTable := [];
    }

    /** `getPointByUserId`: the stored record, or an empty one; changes nothing. */
    method GetPointByUserId(userId: int, now: int) returns (p: UserPoint)
      requires Valid()
      ensures p == SelectById(userPointTable, userId, now)
      ensures p.id == userId && InRange(p.point)
      ensures p.point == NetPoints(ForUser(pointHistoryTable, userId))
    {
      p := SelectById(userPointTable, userId, now);
    }

    /** `getPointHistoryByUserId`: the user's entries in append order; changes nothing. */
    method GetPointHistoryByUserId(userId: int) returns (hs: seq<PointHistory>)
      requires Valid()
      ensures hs == ForUser(pointHistoryTable, userId)
      ensures forall i :: 0 <= i < |hs| ==> hs[i].userId == userId && hs[i].amount > 0
      ensures NetPoints(hs) == Balance(userId) && InRange(NetPoints(hs))
    {
      hs := ForUser(pointHistoryTable, userId);
      forall i | 0 <= i < |hs|
        ensures hs[i].amount > 0
      {
        ForUserMembers(pointHistoryTable, userId, hs[i]);
      }
    }

    /**
     * Recording a committed change of `userId`'s balance keeps the ledger
     * equation for user `id`: the changed user moves by the entry's signed
     * amount on both sides, every other user moves on neither.
     */
    static lemma LedgerAfterCommitAt(t: map<int, UserPoint>, h: seq<PointHistory>,
                                     newPoint: int, e: PointHistory, id: int)
      requires PointOf(t, id) == NetPoints(ForUser(h, id))
      requires newPoint == PointOf(t, e.userId) + Delta(e)
      ensures PointOf(t[e.userId := UserPoint(e.userId, newPoint, e.updateMillis)], id)
              == NetPoints(ForUser(h + [e], id))
    {
      ForUserAppend(h, e, id);
      if id == e.userId {
        NetPointsAppend(ForUser(h, id), e);
      }
    }

    /** The ledger equation, for every user, after one committed change. */
    static lemma LedgerAfterCommit(t: map<int, UserPoint>, h: seq<PointHistory>,
                                   newPoint: int, e: PointHistory)
      requires forall id :: PointOf(t, id) == NetPoints(ForUser(h, id))
      requires newPoint == PointOf(t, e.userId) + Delta(e)
      ensures forall id :: PointOf(t[e.userId := UserPoint(e.userId, newPoint, e.updateMillis)], id)
                           == NetPoints(ForUser(h + [e], id))
    {
      forall id
        ensures PointOf(t[e.userId := UserPoint(e.userId, newPoint, e.updateMillis)], id)
                == NetPoints(ForUser(h + [e], id))
      {
        LedgerAfterCommitAt(t, h, newPoint, e, id);
      }
    }

    /**
     * `charge`: on success the user's record becomes old balance + amount,
     * one CHARGE entry with the requested amount is appended, and the stored
     * record is returned; on any rejection by `plusPoint` nothing changes.
     */
    method Charge(userId: int, amount: int, now: int) returns (r: Result<UserPoint>)
      requires Valid()
      modifies this
      ensures Valid()
      ensures r.Ok? <==> PlusPoint(old(SelectById(userPointTable, userId, now)), amount).Ok?
      ensures r.Err? ==>
        r.error == PlusPoint(old(SelectById(userPointTable, userId, now)), amount).error &&
        userPointTable == old(userPointTable) && pointHistoryTable == old(pointHistoryTable)
      ensures r.Ok? ==>
        r.value == UserPoint(userId, old(Balance(userId)) + amount, now) &&
        userPointTable == old(userPointTable)[userId := r.value] &&
        pointHistoryTable == old(pointHistoryTable) + [PointHistory(userId, amount, CHARGE, now)]
    {
      var userPoint := SelectById(userPointTable, userId, now);
      var amountToSave := PlusPoint(userPoint, amount);
      if amountToSave.Err? {
        return Err(amountToSave.error);
      }
      var entry := PointHistory(userId, amount, CHARGE, now);
      LedgerAfterCommit(userPointTable, pointHistoryTable, amountToSave.value, entry);
      var saved := UserPoint(userId, amountToSave.value, now);
      userPointTable := userPointTable[userId := saved];
      pointHistoryTable := pointHistoryTable + [entry];
      r := Ok(saved);
    }

    /**
     * `use`: on success the user's record becomes old balance - amount and
     * one USE entry with the requested amount is appended; on any rejection
     * by `minusPoint` nothing changes.
     */
    method Use(userId: int, amount: int, now: int) returns (r: Result<UserPoint>)
      requires Valid()
      modifies this
      ensures Valid()
      ensures r.Ok? <==> MinusPoint(old(SelectById(userPointTable, userId, now)), amount).Ok?
      ensures r.Err? ==>
        r.error == MinusPoint(old(SelectById(userPointTable, userId, now)), amount).error &&
        userPointTable == old(userPointTable) && pointHistoryTable == old(pointHistoryTable)
      ensures r.Ok? ==>
        r.value == UserPoint(userId, old(Balance(userId)) - amount, now) &&
        userPointTable == old(userPointTable)[userId := r.value] &&
        pointHistoryTable == old(pointHistoryTable) + [PointHistory(userId, amount, USE, now)]
    {
      var userPoint := SelectById(userPointTable, userId, now);
      var amountToSave := MinusPoint(userPoint, amount);
      if amountToSave.Err? {
        return Err(amountToSave.error);
      }
      var entry := PointHistory(userId, amount, USE, now);
      LedgerAfterCommit(userPointTable, pointHistoryTable, amountToSave.value, entry);
      var saved := UserPoint(userId, amountToSave.value, now);
      userPointTable := userPointTable[userId := saved];
      pointHistoryTable := pointHistoryTable + [entry];
      r := Ok(saved);
    }
  }
}
