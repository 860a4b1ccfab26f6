/**
 * The service's two concurrency tests, replayed one call at a time against
 * a fresh service. The per-user lock serialises the calls of one user, so
 * whatever the schedule, the service sees them as such a sequence; the
 * clock reading of each call is its position in that sequence.
 */
module PointScenarios {
  import opened UserPoints
  import opened PointTables
  import opened PointService

  /** One more multiple of a positive amount, still within `times` of it. */
  lemma MultipleStep(i: nat, times: nat, amount: int)
    requires i < times && 0 < amount
    ensures (i + 1) * amount == i * amount + amount <= times * amount
  {
  }

  /** Entries `lo` to `hi - 1` of `hs` are `kind` entries of `amount`, each stamped with its index. */
  ghost predicate Stamped(hs: seq<PointHistory>, lo: nat, hi: nat,
                          userId: int, amount: int, kind: TransactionType)
    requires hi <= |hs|
  {
    forall k :: lo <= k < hi ==> hs[k] == PointHistory(userId, amount, kind, k)
  }

  /** Appending the next such entry extends the stamped run by one. */
  lemma StampedExtended(hs: seq<PointHistory>, lo: nat, userId: int, amount: int, kind: TransactionType)
    requires lo <= |hs| && Stamped(hs, lo, |hs|, userId, amount, kind)
    ensures Stamped(hs + [PointHistory(userId, amount, kind, |hs|)], lo, |hs| + 1, userId, amount, kind)
  {
  }

  /**
   * `times` charges of `amount` to one fresh user: every charge succeeds,
   * the balance is the total and the user's history holds one CHARGE entry
   * per call, in submission order.
   */
  method ChargeRepeatedly(userId: int, times: nat, amount: int)
    returns (balance: int, history: seq<PointHistory>)
    requires 0 < amount <= OnceChargeMaxPoint && times * amount <= UserMaxPoint
    ensures balance == times * amount
    ensures |history| == times
    ensures forall k :: 0 <= k < times ==> history[k] == PointHistory(userId, amount, CHARGE, k)
  {
    var service := new DefaultPointService();
    ghost var mine: seq<PointHistory> := [];
    var i := 0;
    while i < times
      invariant 0 <= i <= times
      invariant service.Valid()
      invariant service.Balance(userId) == i * amount
      invariant ForUser(service.pointHistoryTable, userId) == mine
      invariant |mine| == i && Stamped(mine, 0, i, userId, amount, CHARGE)
    {
      MultipleStep(i, times, amount);
      var entry := PointHistory(userId, amount, CHARGE, i);
      ForUserAppend(service.pointHistoryTable, entry, userId);
      StampedExtended(mine, 0, userId, amount, CHARGE);
      var r := service.Charge(userId, amount, i);
      assert r.Ok?;
      mine := mine + [entry];
      i := i + 1;
    }
    var p := service.GetPointByUserId(userId, times);
    history := service.GetPointHistoryByUserId(userId);
    assert history == mine;
    balance := p.point;
  }

  /**
   * `times` uses of `amount` by one user of a service, each stamped with its
   * position after `first`: all succeed when the balance covers them, it
   * ends lower by their total, and the user's history grows by one USE entry
   * per call, in submission order.
   */
  method UseEach(service: DefaultPointService, userId: int, first: nat, times: nat, amount: int)
    requires service.Valid() && 0 < amount && times * amount <= service.Balance(userId)
    requires |ForUser(service.pointHistoryTable, userId)| == first
    modifies service
    ensures service.Valid()
    ensures service.Balance(userId) == old(service.Balance(userId)) - times * amount
    ensures |ForUser(service.pointHistoryTable, userId)| == first + times
    ensures ForUser(service.pointHistoryTable, userId)[..first] == old(ForUser(service.pointHistoryTable, userId))
    ensures Stamped(ForUser(service.pointHistoryTable, userId), first, first + times, userId, amount, USE)
    ensures forall id :: id != userId ==> service.Balance(id) == old(service.Balance(id))
  {
    ghost var mine := ForUser(service.pointHistoryTable, userId);
    ghost var start := service.Balance(userId);
    var i := 0;
    while i < times
      invariant 0 <= i <= times
      invariant service.Valid()
      invariant service.Balance(userId) + i * amount == start
      invariant ForUser(service.pointHistoryTable, userId) == mine
      invariant |mine| == first + i && mine[..first] == old(ForUser(service.pointHistoryTable, userId))
      invariant Stamped(mine, first, first + i, userId, amount, USE)
      invariant forall id :: id != userId ==> service.Balance(id) == old(service.Balance(id))
    {
      MultipleStep(i, times, amount);
      var entry := PointHistory(userId, amount, USE, first + i);
      ForUserAppend(service.pointHistoryTable, entry, userId);
      StampedExtended(mine, first, userId, amount, USE);
      var r := service.Use(userId, amount, first + i);
      assert r.Ok?;
      assert (mine + [entry])[..first] == mine[..first];
      mine := mine + [entry];
      i := i + 1;
    }
  }

  /**
   * One charge of `total` to a fresh user, then `times` uses of `amount`
   * that add up to it: every call succeeds, the balance ends at zero and the
   * history holds the charge followed by one USE entry per call, in
   * submission order.
   */
  method UseRepeatedly(userId: int, total: int, times: nat, amount: int)
    returns (balance: int, history: seq<PointHistory>)
    requires 0 < total <= OnceChargeMaxPoint && 0 < amount && times * amount == total
    ensures balance == 0
    ensures |history| == times + 1
    ensures history[0] == PointHistory(userId, total, CHARGE, 0)
    ensures forall k :: 1 <= k <= times ==> history[k] == PointHistory(userId, amount, USE, k)
  {
    var service := new DefaultPointService();
    var charge := PointHistory(userId, total, CHARGE, 0);
    var charged := service.Charge(userId, total, 0);
    assert charged.Ok?;
    ForUserAppend([], charge, userId);
    UseEach(service, userId, 1, times, amount);
    var p := service.GetPointByUserId(userId, times + 1);
    history := service.GetPointHistoryByUserId(userId);
    assert history[..1] == [charge];
    balance := p.point;
  }

  /** Ten charges of 100 to a fresh user leave 1000 points and ten entries. */
  method ChargeConcurrently() returns (balance: int, history: seq<PointHistory>)
    ensures balance == 1000 && |history| == 10
    ensures forall k :: 0 <= k < 10 ==> history[k].kind == CHARGE && history[k].amount == 100
  {
    balance, history := ChargeRepeatedly(1, 10, 100);
  }

  /** A charge of 1000 and then ten uses of 100 leave 0 points and eleven entries. */
  method UseConcurrently() returns (balance: int, history: seq<PointHistory>)
    ensures balance == 0 && |history| == 11
    ensures history[0].kind == CHARGE && history[0].amount == 1000
    ensures forall k :: 1 <= k < 11 ==> history[k].kind == USE && history[k].amount == 100
  {
    balance, history := UseRepeatedly(2, 1000, 10, 100);
  }
}
