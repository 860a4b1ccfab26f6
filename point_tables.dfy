/**
 * The two storage tables the service talks to, `UserPointTable` and
 * `PointHistoryTable`. Their code is not part of this model, so they are
 * represented abstractly: the balance table as a map from user id to the
 * stored record, the history table as an append-only sequence of entries.
 */
module PointTables {
  import opened UserPoints

  datatype TransactionType = CHARGE | USE

  /** One history entry: who, how much (the positive magnitude), which kind, when. */
  datatype PointHistory = PointHistory(userId: int, amount: int, kind: TransactionType, updateMillis: int)

  /** `UserPointTable.selectById`: the stored record, or an empty one for an unknown user. */
  function SelectById(table: map<int, UserPoint>, id: int, now: int): (r: UserPoint)
    ensures id in table ==> r == table[id]
    ensures id !in table ==> r == Empty(id, now)
    ensures r.point == PointOf(table, id)
  {
    if id in table then table[id] else Empty(id, now)
  }

  /** The balance `selectById` would report, whatever the clock says. */
  function PointOf(table: map<int, UserPoint>, id: int): int {
    if id in table then table[id].point else 0
  }

  /**
   * `PointHistoryTable.selectAllByUserId`: the entries of one user, in the
   * order they were appended.
   */
  function ForUser(history: seq<PointHistory>, userId: int): (r: seq<PointHistory>)
    ensures |r| <= |history|
    ensures forall i :: 0 <= i < |r| ==> r[i].userId == userId
  {
    if |history| == 0 then []
    else
      var rest := ForUser(history[..|history| - 1], userId);
      var last := history[|history| - 1];
      assert history == history[..|history| - 1] + [last];
      if last.userId == userId then rest + [last] else rest
  }

  /** The user's list holds every entry of that user and nothing else. */
  lemma {:induction false} ForUserMembers(history: seq<PointHistory>, userId: int, e: PointHistory)
    ensures e in ForUser(history, userId) <==> e in history && e.userId == userId
  {
    if |history| > 0 {
      var init := history[..|history| - 1];
      assert history == init + [history[|history| - 1]];
      ForUserMembers(init, userId, e);
    }
  }

  /** The signed effect of one entry on its user's balance. */
  function Delta(e: PointHistory): int {
    match e.kind
    case CHARGE => e.amount
    case USE => -e.amount
  }

  /** Sum of the charges minus sum of the uses recorded in `history`. */
  function NetPoints(history: seq<PointHistory>): int {
    if |history| == 0 then 0
    else NetPoints(history[..|history| - 1]) + Delta(history[|history| - 1])
  }

  /** Appending an entry adds it to its own user's list and to no other. */
  lemma ForUserAppend(history: seq<PointHistory>, e: PointHistory, userId: int)
    ensures ForUser(history + [e], userId) ==
      if e.userId == userId then ForUser(history, userId) + [e] else ForUser(history, userId)
  {
    assert (history + [e])[..|history|] == history;
  }

  /** Appending an entry moves the net sum by exactly that entry's signed amount. */
  lemma NetPointsAppend(history: seq<PointHistory>, e: PointHistory)
    ensures NetPoints(history + [e]) == NetPoints(history) + Delta(e)
  {
    assert (history + [e])[..|history|] == history;
  }
}
