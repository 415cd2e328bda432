/**
 * Daily profit accrual (app/api/investment-profit/route.ts): the pure
 * day-counting function, the batch that persists accrued returns and completes
 * matured positions, and the read-only overview a user's dashboard asks for.
 *
 * `now` is an argument, and `dayOf` maps a time to its calendar day, standing
 * for the comparison of `toDateString()` values.
 */
module InvestmentProfitRoute {
  import opened Wrappers
  import opened Models
  import opened Store
  import Js

  const DAILY_PROFIT_RATE: real := 0.149
  const INVESTMENT_DURATION_DAYS: nat := 7
  const DAY: int := 1000 * 60 * 60 * 24

  const INFO_NOT_FOUND := "Investment information not found"

  function Min(a: int, b: int): int { if a <= b then a else b }
  function Max(a: int, b: int): int { if a >= b then a else b }

  datatype DailyReturns = DailyReturns(newReturn: real, daysProcessed: int)

  /**
   * calculateDailyReturns: nothing on the day of the last update; otherwise the
   * whole days since that update, but no more than one day beyond the whole
   * days left until maturity. `int` division by the positive `DAY` is the
   * floor that `Math.floor` takes.
   */
  function CalculateDailyReturns(s: Schedule, now: Millis, dayOf: Millis -> int): (r: DailyReturns)
    ensures dayOf(s.lastReturnUpdate) == dayOf(now) ==> r == DailyReturns(s.currentReturn, 0)
    ensures r.newReturn == s.currentReturn + s.dailyReturn * r.daysProcessed as real
    ensures dayOf(s.lastReturnUpdate) != dayOf(now) ==>
      && r.daysProcessed <= (now - s.lastReturnUpdate) / DAY
      && r.daysProcessed <= Max(0, (s.maturityDate - now) / DAY + 1)
      && (r.daysProcessed == (now - s.lastReturnUpdate) / DAY
          || r.daysProcessed == Max(0, (s.maturityDate - now) / DAY + 1))
    ensures s.lastReturnUpdate <= now ==> r.daysProcessed >= 0
    ensures s.lastReturnUpdate <= now && s.dailyReturn >= 0.0 ==> r.newReturn >= s.currentReturn
    ensures s.lastReturnUpdate <= now && now > s.maturityDate ==> r.daysProcessed == 0
  {
    if dayOf(s.lastReturnUpdate) == dayOf(now) then
      DailyReturns(s.currentReturn, 0)
    else
      var daysSinceUpdate := (now - s.lastReturnUpdate) / DAY;
      var daysUntilMaturity := (s.maturityDate - now) / DAY;
      var daysToProcess := Min(daysSinceUpdate, Max(0, daysUntilMaturity + 1));
      DailyReturns(s.currentReturn + s.dailyReturn * daysToProcess as real, daysToProcess)
  }

  /**
   * A position last updated seven days before maturity, visited again twelve
   * hours before maturity, is credited one day and not the six it missed:
   * the cap counts days from now to maturity, not from the last update.
   */
  lemma CatchUpCappedNearMaturity(dayOf: Millis -> int)
    requires dayOf(0) != dayOf(6 * DAY + DAY / 2)
    ensures CalculateDailyReturns(Schedule(7 * DAY, 0, 0.0, 100.0), 6 * DAY + DAY / 2, dayOf)
      == DailyReturns(100.0, 1)
  {
  }

  /** The profit handleCompletedInvestment credits: the full seven days at 0.149, whatever was accrued. */
  function CompletionProfit(amount: real): real
  {
    amount * DAILY_PROFIT_RATE * INVESTMENT_DURATION_DAYS as real
  }

  /** The ledger after handleCompletedInvestment's `$inc` and `$set`. */
  function CompletedInfo(info: InvestmentInfo, amount: real, now: Millis): (r: InvestmentInfo)
    ensures r.accountBalance == info.accountBalance + amount + 1.043 * amount
    ensures r.investmentAmount == info.investmentAmount - amount
    ensures r.totalProfit == info.totalProfit + 1.043 * amount
    ensures r.accountBalance + r.investmentAmount
      == info.accountBalance + info.investmentAmount + CompletionProfit(amount)
    ensures r.package == if info.investmentAmount - amount == 0.0 then NO_INVESTMENT else info.package
    ensures r.totalReturnsEarned == info.totalReturnsEarned
    ensures r.lastInvestmentDate == info.lastInvestmentDate && r.createdAt == info.createdAt
    ensures r.updatedAt == now
  {
    var totalProfit := CompletionProfit(amount);
    info.(accountBalance := info.accountBalance + (amount + totalProfit),
          investmentAmount := info.investmentAmount - amount,
          totalProfit := info.totalProfit + totalProfit,
          updatedAt := now,
          package := if info.investmentAmount - amount == 0.0 then NO_INVESTMENT else info.package)
  }

  /** One entry of the batch's `results`. */
  datatype BatchEntry =
    | Accrued(investmentId: nat, profitAdded: real, daysProcessed: int)
    | Matured(investmentId: nat, totalProfit: real)
    | Failed(investmentId: nat, error: string)

  /** The two collections the batch writes. */
  datatype Books = Books(positions: seq<Position>, infos: map<UserId, InvestmentInfo>)

  /** `CreateInvestment.find({ status: "active" })`: the active positions, in storage order. */
  function ActiveIds(ps: seq<Position>): (ids: seq<nat>)
    ensures forall k :: 0 <= k < |ids| ==> ids[k] < |ps| && ps[ids[k]].status == ACTIVE
    ensures forall j :: 0 <= j < |ps| && ps[j].status == ACTIVE ==> j in ids
    ensures forall k, l :: 0 <= k < l < |ids| ==> ids[k] < ids[l]
  {
    if ps == [] then []
    else
      var ids := ActiveIds(ps[..|ps| - 1]);
      if ps[|ps| - 1].status == ACTIVE then ids + [|ps| - 1] else ids
  }

  /** The `$set` of an accrual: the new return and the time of this update. */
  function WithReturn(p: Position, s: Schedule, newReturn: real, now: Millis): Position
  {
    p.(schedule := Some(s.(currentReturn := newReturn, lastReturnUpdate := now)))
  }

  /** The batch finds the position matured: `new Date() >= maturityDate`, false when the field is missing. */
  predicate Matures(p: Position, now: Millis)
  {
    p.schedule.Some? && now >= p.schedule.value.maturityDate
  }

  /** The return the batch adds to a position visited at `now`, or 0 when it writes nothing. */
  function AccrualDelta(p: Position, now: Millis, dayOf: Millis -> int): real
  {
    match p.schedule
    case None => 0.0
    case Some(s) =>
      var dr := CalculateDailyReturns(s, now, dayOf);
      if dr.daysProcessed > 0 then dr.newReturn - s.currentReturn else 0.0
  }

  /** A position after one visit of the batch, given whether its owner has a ledger. */
  function PositionAfter(p: Position, now: Millis, dayOf: Millis -> int, hasLedger: bool): Position
  {
    match p.schedule
    case None => p
    case Some(s) =>
      var dr := CalculateDailyReturns(s, now, dayOf);
      var p1 := if dr.daysProcessed > 0 then WithReturn(p, s, dr.newReturn, now) else p;
      if now >= s.maturityDate && hasLedger then p1.(status := COMPLETED, updatedAt := now) else p1
  }

  /**
   * One iteration of the batch loop for the position `id`: persist the accrual
   * when a day or more is processed, then complete the position when it has
   * matured, or record an error when its owner has no ledger.
   */
  function ProcessOne(b: Books, id: nat, now: Millis, dayOf: Millis -> int): (r: (Books, seq<BatchEntry>))
    requires id < |b.positions|
    ensures r.0.infos.Keys == b.infos.Keys
    ensures r.0.positions
      == b.positions[id := PositionAfter(b.positions[id], now, dayOf, b.positions[id].userId in b.infos)]
    ensures forall u :: u in b.infos && u != b.positions[id].userId ==> r.0.infos[u] == b.infos[u]
    ensures var p := b.positions[id]; var u := p.userId;
      u in b.infos ==>
        var before, after := b.infos[u], r.0.infos[u];
        var credit := if Matures(p, now) then p.amount else 0.0;
        && after.totalReturnsEarned == before.totalReturnsEarned + AccrualDelta(p, now, dayOf)
        && after.accountBalance == before.accountBalance + credit + 1.043 * credit
        && after.investmentAmount == before.investmentAmount - credit
        && after.totalProfit == before.totalProfit + 1.043 * credit
    ensures Failed(id, INFO_NOT_FOUND) in r.1 <==> Matures(b.positions[id], now) && b.positions[id].userId !in b.infos
  {
    var inv := b.positions[id];
    match inv.schedule
    case None => (b, [])
    case Some(s) =>
      var dr := CalculateDailyReturns(s, now, dayOf);
      var u := inv.userId;
      var delta := dr.newReturn - s.currentReturn;
      var accrued := dr.daysProcessed > 0;
      var ps1 := if accrued then b.positions[id := WithReturn(inv, s, dr.newReturn, now)] else b.positions;
      var infos1 := if accrued && u in b.infos
        then b.infos[u := b.infos[u].(totalReturnsEarned := b.infos[u].totalReturnsEarned + delta)]
        else b.infos;
      var log1 := if accrued then [Accrued(id, delta, dr.daysProcessed)] else [];
      if now >= s.maturityDate then
        if u in infos1 then
          (Books(ps1[id := ps1[id].(status := COMPLETED, updatedAt := now)],
                 infos1[u := CompletedInfo(infos1[u], inv.amount, now)]),
           log1 + [Matured(id, CompletionProfit(inv.amount))])
        else
          (Books(ps1, infos1), log1 + [Failed(id, INFO_NOT_FOUND)])
      else
        (Books(ps1, infos1), log1)
  }

  predicate ValidIds(ids: seq<nat>, n: nat)
  {
    forall m :: 0 <= m < |ids| ==> ids[m] < n
  }

  /** The first `k` iterations of the batch loop over `ids`. */
  function ProcessAll(b: Books, ids: seq<nat>, k: nat, now: Millis, dayOf: Millis -> int): (r: (Books, seq<BatchEntry>))
    requires k <= |ids| && ValidIds(ids, |b.positions|)
    ensures |r.0.positions| == |b.positions| && r.0.infos.Keys == b.infos.Keys
    decreases k
  {
    if k == 0 then (b, [])
    else
      var prev := ProcessAll(b, ids, k - 1, now, dayOf);
      var step := ProcessOne(prev.0, ids[k - 1], now, dayOf);
      (step.0, prev.1 + step.1)
  }

  /** The whole batch: every position that was active when it started, in storage order. */
  function Batch(b: Books, now: Millis, dayOf: Millis -> int): (r: (Books, seq<BatchEntry>))
  {
    var ids := ActiveIds(b.positions);
    ProcessAll(b, ids, |ids|, now, dayOf)
  }

  /** A position the first `k` iterations have not visited is unchanged. */
  lemma {:induction false} ProcessAllUnvisited(b: Books, ids: seq<nat>, k: nat, j: nat, now: Millis, dayOf: Millis -> int)
    requires k <= |ids| && ValidIds(ids, |b.positions|)
    requires j < |b.positions| && j !in ids[..k]
    ensures ProcessAll(b, ids, k, now, dayOf).0.positions[j] == b.positions[j]
  {
    if k > 0 {
      assert ids[..k] == ids[..k - 1] + [ids[k - 1]];
      ProcessAllUnvisited(b, ids, k - 1, j, now, dayOf);
    }
  }

  /**
   * Each position the loop has visited is the position after one visit, every
   * other is untouched: one position's failure does not stop the others.
   */
  lemma {:induction false} ProcessAllPositions(b: Books, ids: seq<nat>, k: nat, now: Millis, dayOf: Millis -> int)
    requires k <= |ids| && ValidIds(ids, |b.positions|)
    requires forall m, l :: 0 <= m < l < |ids| ==> ids[m] != ids[l]
    ensures var r := ProcessAll(b, ids, k, now, dayOf).0;
      forall j :: 0 <= j < |b.positions| ==>
        r.positions[j] == if j in ids[..k]
          then PositionAfter(b.positions[j], now, dayOf, b.positions[j].userId in b.infos)
          else b.positions[j]
  {
    if k > 0 {
      ProcessAllPositions(b, ids, k - 1, now, dayOf);
      var prev := ProcessAll(b, ids, k - 1, now, dayOf).0;
      var r := ProcessAll(b, ids, k, now, dayOf).0;
      var id := ids[k - 1];
      var q := b.positions[id];
      assert r == ProcessOne(prev, id, now, dayOf).0;
      assert id !in ids[..k - 1];
      assert ids[..k] == ids[..k - 1] + [id];
      ProcessAllUnvisited(b, ids, k - 1, id, now, dayOf);
      assert (q.userId in prev.infos) == (q.userId in b.infos);
      assert r.positions == prev.positions[id := PositionAfter(q, now, dayOf, q.userId in b.infos)];
      forall j | 0 <= j < |b.positions|
        ensures r.positions[j] ==
          if j in ids[..k] then PositionAfter(b.positions[j], now, dayOf, b.positions[j].userId in b.infos)
          else b.positions[j]
      {
        if j != id {
          assert (j in ids[..k]) == (j in ids[..k - 1]);
        }
      }
    }
  }

  /** The batch never changes a position's owner or whether and when it matures. */
  predicate SameOwnerAndMaturity(p: Position, q: Position)
  {
    p.userId == q.userId && p.schedule.Some? == q.schedule.Some?
    && (p.schedule.Some? ==> p.schedule.value.maturityDate == q.schedule.value.maturityDate)
  }

  lemma {:induction false} ProcessAllKeepsMaturity(b: Books, ids: seq<nat>, k: nat, j: nat, now: Millis, dayOf: Millis -> int)
    requires k <= |ids| && ValidIds(ids, |b.positions|) && j < |b.positions|
    ensures SameOwnerAndMaturity(ProcessAll(b, ids, k, now, dayOf).0.positions[j], b.positions[j])
  {
    if k > 0 {
      ProcessAllKeepsMaturity(b, ids, k - 1, j, now, dayOf);
      var prev := ProcessAll(b, ids, k - 1, now, dayOf).0;
      var id := ids[k - 1];
      var r := ProcessAll(b, ids, k, now, dayOf).0;
      assert r == ProcessOne(prev, id, now, dayOf).0;
      if j == id {
        PositionAfterKeepsMaturity(prev.positions[j], now, dayOf, prev.positions[j].userId in prev.infos);
      } else {
        assert r.positions[j] == prev.positions[j];
      }
    }
  }

  lemma PositionAfterKeepsMaturity(p: Position, now: Millis, dayOf: Millis -> int, hasLedger: bool)
    ensures SameOwnerAndMaturity(PositionAfter(p, now, dayOf, hasLedger), p)
  {
  }

  /** Every visited matured position whose owner has no ledger leaves an error entry. */
  lemma {:induction false} ProcessAllReportsMissingLedgers(b: Books, ids: seq<nat>, k: nat, now: Millis, dayOf: Millis -> int)
    requires k <= |ids| && ValidIds(ids, |b.positions|)
    ensures forall m :: 0 <= m < k && Matures(b.positions[ids[m]], now) && b.positions[ids[m]].userId !in b.infos ==>
      Failed(ids[m], INFO_NOT_FOUND) in ProcessAll(b, ids, k, now, dayOf).1
  {
    if k > 0 {
      ProcessAllReportsMissingLedgers(b, ids, k - 1, now, dayOf);
      var prev := ProcessAll(b, ids, k - 1, now, dayOf);
      var id := ids[k - 1];
      var step := ProcessOne(prev.0, id, now, dayOf);
      var all := ProcessAll(b, ids, k, now, dayOf).1;
      assert all == prev.1 + step.1;
      forall m | 0 <= m < k && Matures(b.positions[ids[m]], now) && b.positions[ids[m]].userId !in b.infos
        ensures Failed(ids[m], INFO_NOT_FOUND) in all
      {
        if m < k - 1 {
          assert Failed(ids[m], INFO_NOT_FOUND) in prev.1;
        } else {
          ProcessAllKeepsMaturity(b, ids, k - 1, id, now, dayOf);
          assert Failed(id, INFO_NOT_FOUND) in step.1;
        }
      }
    }
  }

  /**
   * The batch's outcome per position: an active position that has matured is
   * completed when its owner has a ledger and otherwise stays active with an
   * error entry; a position that was not active is not touched.
   */
  lemma BatchOutcome(b: Books, now: Millis, dayOf: Millis -> int)
    ensures var r := Batch(b, now, dayOf);
      forall j :: 0 <= j < |b.positions| ==>
        var p := b.positions[j];
        && (p.status != ACTIVE ==> r.0.positions[j] == p)
        && (p.status == ACTIVE && Matures(p, now) && p.userId in b.infos ==> r.0.positions[j].status == COMPLETED)
        && (p.status == ACTIVE && Matures(p, now) && p.userId !in b.infos ==>
              r.0.positions[j].status == ACTIVE && Failed(j, INFO_NOT_FOUND) in r.1)
  {
    var ids := ActiveIds(b.positions);
    ProcessAllPositions(b, ids, |ids|, now, dayOf);
    ProcessAllReportsMissingLedgers(b, ids, |ids|, now, dayOf);
    assert ids[..|ids|] == ids;
    forall j | 0 <= j < |b.positions| && b.positions[j].status == ACTIVE
      ensures exists m :: 0 <= m < |ids| && ids[m] == j
    {
      assert j in ids;
    }
  }

  /**
   * A completed position set back to active, as create-investment's PATCH
   * allows, is picked up by the next batch, completed again, and its owner is
   * credited the amount and the completion profit a second time.
   */
  lemma ReactivatedPositionPaidAgain(b: Books, id: nat, now: Millis, dayOf: Millis -> int)
    requires id < |b.positions| && b.positions[id].status == COMPLETED
    requires Matures(b.positions[id], now) && b.positions[id].userId in b.infos
    ensures var p := b.positions[id];
      var again := b.(positions := b.positions[id := p.(status := ACTIVE)]);
      var r := ProcessOne(again, id, now, dayOf).0;
      && id in ActiveIds(again.positions)
      && r.positions[id].status == COMPLETED
      && r.infos[p.userId].accountBalance == b.infos[p.userId].accountBalance + p.amount + 1.043 * p.amount
      && r.infos[p.userId].totalProfit == b.infos[p.userId].totalProfit + 1.043 * p.amount
  {
  }

  /** A visit of the batch to a position it left active changes nothing at the same `now`. */
  lemma RevisitIsNoOp(b1: Books, id: nat, p: Position, now: Millis, dayOf: Millis -> int)
    requires id < |b1.positions|
    requires b1.positions[id] == PositionAfter(p, now, dayOf, p.userId in b1.infos)
    requires b1.positions[id].userId == p.userId
    requires b1.positions[id].status == ACTIVE && p.status == ACTIVE
    ensures ProcessOne(b1, id, now, dayOf).0 == b1
    ensures forall e :: e in ProcessOne(b1, id, now, dayOf).1 ==> e.Failed?
  {
    var q := b1.positions[id];
    match p.schedule
    case None =>
    case Some(s) =>
      var dr := CalculateDailyReturns(s, now, dayOf);
      var p1 := if dr.daysProcessed > 0 then WithReturn(p, s, dr.newReturn, now) else p;
      assert q == p1;
      var s2 := q.schedule.value;
      assert CalculateDailyReturns(s2, now, dayOf).daysProcessed <= 0;
  }

  /**
   * A second batch at the same `now` changes nothing: each position it saw active
   * was either updated to `now` or processed no day, and each matured one it left
   * active has no ledger. Its only entries are those errors.
   */
  lemma {:induction false} BatchIdempotent(b: Books, now: Millis, dayOf: Millis -> int)
    ensures var b1 := Batch(b, now, dayOf).0;
      Batch(b1, now, dayOf).0 == b1
      && forall e :: e in Batch(b1, now, dayOf).1 ==> e.Failed?
  {
    var ids1 := ActiveIds(b.positions);
    var b1 := Batch(b, now, dayOf).0;
    ProcessAllPositions(b, ids1, |ids1|, now, dayOf);
    assert ids1[..|ids1|] == ids1;
    var ids2 := ActiveIds(b1.positions);
    forall id | id in ids2
      ensures id < |b1.positions|
      ensures ProcessOne(b1, id, now, dayOf).0 == b1
      ensures forall e :: e in ProcessOne(b1, id, now, dayOf).1 ==> e.Failed?
    {
      var p := b.positions[id];
      assert id in ids1;
      assert b1.positions[id] == PositionAfter(p, now, dayOf, p.userId in b.infos);
      assert p.status == ACTIVE;
      RevisitIsNoOp(b1, id, p, now, dayOf);
    }
    SecondPassNoOp(b1, ids2, |ids2|, now, dayOf);
  }

  lemma {:induction false} SecondPassNoOp(b1: Books, ids: seq<nat>, k: nat, now: Millis, dayOf: Millis -> int)
    requires k <= |ids| && ValidIds(ids, |b1.positions|)
    requires forall id :: id in ids ==>
      && id < |b1.positions|
      && ProcessOne(b1, id, now, dayOf).0 == b1
      && forall e :: e in ProcessOne(b1, id, now, dayOf).1 ==> e.Failed?
    ensures ProcessAll(b1, ids, k, now, dayOf).0 == b1
    ensures forall e :: e in ProcessAll(b1, ids, k, now, dayOf).1 ==> e.Failed?
  {
    if k > 0 {
      SecondPassNoOp(b1, ids, k - 1, now, dayOf);
      assert ids[k - 1] in ids;
    }
  }

  /**
   * The batch loop of the POST handler (the bearer-secret check is left out): it
   * works through the positions that were active when it started, and its
   * results and writes are those of `Batch`.
   */
  method Post(db: Db, now: Millis, dayOf: Millis -> int) returns (results: seq<BatchEntry>)
    modifies db
    ensures (Books(db.positions, db.infos), results) == Batch(Books(old(db.positions), old(db.infos)), now, dayOf)
    ensures db.users == old(db.users) && db.kycs == old(db.kycs)
    ensures db.proofs == old(db.proofs) && db.withdrawals == old(db.withdrawals)
  {
    var snapshot := db.positions;
    ghost var b0 := Books(db.positions, db.infos);
    var activeInvestments := ActiveIds(db.positions);
    results := [];
    for k := 0 to |activeInvestments|
      invariant |db.positions| == |snapshot|
      invariant (Books(db.positions, db.infos), results) == ProcessAll(b0, activeInvestments, k, now, dayOf)
      invariant forall m :: k <= m < |activeInvestments| ==>
        db.positions[activeInvestments[m]] == snapshot[activeInvestments[m]]
      invariant db.users == old(db.users) && db.kycs == old(db.kycs)
      invariant db.proofs == old(db.proofs) && db.withdrawals == old(db.withdrawals)
    {
      var id := activeInvestments[k];
      var investment := snapshot[id];
      var entries := ProcessInvestment(db, id, investment, now, dayOf);
      results := results + entries;
    }
  }

  /** The body of the batch loop for one position, `investment` being its stored record. */
  method ProcessInvestment(db: Db, id: nat, investment: Position, now: Millis, dayOf: Millis -> int)
    returns (entries: seq<BatchEntry>)
    requires id < |db.positions| && db.positions[id] == investment
    modifies db
    ensures (Books(db.positions, db.infos), entries) == ProcessOne(Books(old(db.positions), old(db.infos)), id, now, dayOf)
    ensures db.users == old(db.users) && db.kycs == old(db.kycs)
    ensures db.proofs == old(db.proofs) && db.withdrawals == old(db.withdrawals)
  {
    ghost var b0 := Books(db.positions, db.infos);
    entries := [];
    match investment.schedule {
      case None =>
        // without the accrual fields the day count is NaN and the maturity comparison false
      case Some(s) =>
        var dr := CalculateDailyReturns(s, now, dayOf);
        ghost var accrued := dr.daysProcessed > 0;
        ghost var ps1 := if accrued then b0.positions[id := WithReturn(investment, s, dr.newReturn, now)] else b0.positions;
        ghost var infos1 := if accrued && investment.userId in b0.infos
          then b0.infos[investment.userId := b0.infos[investment.userId].(totalReturnsEarned := b0.infos[investment.userId].totalReturnsEarned + (dr.newReturn - s.currentReturn))]
          else b0.infos;
        if dr.daysProcessed > 0 {
          db.positions := db.positions[id := WithReturn(investment, s, dr.newReturn, now)];
          if investment.userId in db.infos {
            var info := db.infos[investment.userId];
            db.infos := db.infos[investment.userId :=
              info.(totalReturnsEarned := info.totalReturnsEarned + (dr.newReturn - s.currentReturn))];
          }
          entries := entries + [Accrued(id, dr.newReturn - s.currentReturn, dr.daysProcessed)];
        }
        assert db.positions == ps1 && db.infos == infos1;
        assert entries == if accrued then [Accrued(id, dr.newReturn - s.currentReturn, dr.daysProcessed)] else [];
        if now >= s.maturityDate {
          if investment.userId !in db.infos {
            entries := entries + [Failed(id, INFO_NOT_FOUND)];
          } else {
            var totalProfit := HandleCompletedInvestment(db, id, investment, now);
            entries := entries + [Matured(id, totalProfit)];
          }
        }
    }
  }

  /** handleCompletedInvestment: mark the position completed and settle it into its owner's ledger. */
  method HandleCompletedInvestment(db: Db, id: nat, investment: Position, now: Millis) returns (totalProfit: real)
    requires id < |db.positions| && investment.userId in db.infos
    modifies db
    ensures totalProfit == CompletionProfit(investment.amount)
    ensures db.positions == old(db.positions)[id := old(db.positions)[id].(status := COMPLETED, updatedAt := now)]
    ensures db.infos == old(db.infos)[investment.userId :=
      CompletedInfo(old(db.infos)[investment.userId], investment.amount, now)]
    ensures db.users == old(db.users) && db.kycs == old(db.kycs)
    ensures db.proofs == old(db.proofs) && db.withdrawals == old(db.withdrawals)
  {
    totalProfit := investment.amount * DAILY_PROFIT_RATE * INVESTMENT_DURATION_DAYS as real;
    db.positions := db.positions[id := db.positions[id].(status := COMPLETED, updatedAt := now)];
    var info := db.infos[investment.userId];
    db.infos := db.infos[investment.userId := info.(
      accountBalance := info.accountBalance + (investment.amount + totalProfit),
      investmentAmount := info.investmentAmount - investment.amount,
      totalProfit := info.totalProfit + totalProfit,
      updatedAt := now,
      package := if info.investmentAmount - investment.amount == 0.0 then NO_INVESTMENT else info.package)];
  }

  // ---------------------------------------------------------------------------
  // GET: the read-only overview of one user's investments

  /** The user's positions with the given status, in storage order. */
  function Owned(ps: seq<Position>, u: UserId, status: string): (r: seq<Position>)
    ensures forall p :: p in r ==> p in ps && p.userId == u && p.status == status
    ensures |r| <= |ps|
  {
    if ps == [] then []
    else
      var rest := Owned(ps[..|ps| - 1], u, status);
      var p := ps[|ps| - 1];
      if p.userId == u && p.status == status then rest + [p] else rest
  }

  /**
   * Every matching position is returned, as often as it occurs, so the list
   * is as long as the number of the user's positions with that status.
   */
  lemma {:induction false} OwnedComplete(ps: seq<Position>, u: UserId, status: string)
    ensures forall i :: 0 <= i < |ps| && ps[i].userId == u && ps[i].status == status ==> ps[i] in Owned(ps, u, status)
    ensures forall p: Position :: p.userId == u && p.status == status ==>
      multiset(Owned(ps, u, status))[p] == multiset(ps)[p]
  {
    if ps != [] {
      var init := ps[..|ps| - 1];
      var p := ps[|ps| - 1];
      OwnedComplete(init, u, status);
      assert ps == init + [p];
      var rest := Owned(init, u, status);
      if p.userId == u && p.status == status {
        assert Owned(ps, u, status) == rest + [p];
      } else {
        assert Owned(ps, u, status) == rest;
      }
      forall i | 0 <= i < |ps| && ps[i].userId == u && ps[i].status == status
        ensures ps[i] in Owned(ps, u, status)
      {
        if i < |init| {
          assert ps[i] == init[i];
        }
      }
    }
  }

  /** The user's positions that are active or completed, in storage order. */
  function OwnedInvested(ps: seq<Position>, u: UserId): seq<Position>
  {
    if ps == [] then []
    else
      var rest := OwnedInvested(ps[..|ps| - 1], u);
      var p := ps[|ps| - 1];
      if p.userId == u && (p.status == ACTIVE || p.status == COMPLETED) then rest + [p] else rest
  }

  function SumAmounts(ps: seq<Position>): real
  {
    if ps == [] then 0.0 else SumAmounts(ps[..|ps| - 1]) + ps[|ps| - 1].amount
  }

  /** The return GET shows for an active position: recomputed, NaN without the accrual fields. */
  function ShownReturn(p: Position, now: Millis, dayOf: Millis -> int): Js.Number
  {
    match p.schedule
    case Some(s) => Js.Num(CalculateDailyReturns(s, now, dayOf).newReturn)
    case None => Js.NaN
  }

  /** The stored `currentReturn` of a position, NaN when it is missing. */
  function StoredReturn(p: Position): Js.Number
  {
    match p.schedule
    case Some(s) => Js.Num(s.currentReturn)
    case None => Js.NaN
  }

  predicate AllScheduled(ps: seq<Position>)
  {
    forall i :: 0 <= i < |ps| ==> ps[i].schedule.Some?
  }

  /** The sum of the shown returns; with JavaScript's `+`, NaN as soon as one position lacks them. */
  function SumShownReturns(ps: seq<Position>, now: Millis, dayOf: Millis -> int): (r: Js.Number)
    ensures r.Num? <==> AllScheduled(ps)
  {
    if ps == [] then Js.Num(0.0)
    else Js.Add(SumShownReturns(ps[..|ps| - 1], now, dayOf), ShownReturn(ps[|ps| - 1], now, dayOf))
  }

  /** The sum of the stored returns, NaN as soon as one position lacks them. */
  function SumStoredReturns(ps: seq<Position>): (r: Js.Number)
    ensures r.Num? <==> AllScheduled(ps)
  {
    if ps == [] then Js.Num(0.0)
    else Js.Add(SumStoredReturns(ps[..|ps| - 1]), StoredReturn(ps[|ps| - 1]))
  }

  /** The active positions as GET lists them. */
  function ShowActive(ps: seq<Position>, now: Millis, dayOf: Millis -> int): (r: seq<Shown>)
    ensures |r| == |ps|
    ensures forall i :: 0 <= i < |ps| ==> r[i] == Shown(ps[i], ShownReturn(ps[i], now, dayOf))
  {
    if ps == [] then []
    else ShowActive(ps[..|ps| - 1], now, dayOf) + [Shown(ps[|ps| - 1], ShownReturn(ps[|ps| - 1], now, dayOf))]
  }

  datatype Stats = Stats(
    totalActiveInvestments: real,
    totalCompletedInvestments: real,
    totalInvestmentAmount: real,
    totalCurrentReturns: Js.Number,
    totalProfit: Js.Number)

  datatype Account = Account(
    userId: UserId,
    accountBalance: real,
    package: string,
    totalReturnsEarned: real,
    lastInvestmentDate: Option<Millis>)

  datatype Summary = Summary(
    activeInvestmentsCount: nat,
    completedInvestmentsCount: nat,
    cancelledInvestmentsCount: nat,
    totalLifetimeInvestments: nat)

  /** An active position as GET lists it, with its recomputed return. */
  datatype Shown = Shown(position: Position, currentReturn: Js.Number)

  datatype Overview = Overview(
    active: seq<Shown>,
    completed: seq<Position>,
    stats: Stats,
    account: Account,
    summary: Summary)

  /**
   * The GET handler: it recomputes active returns for display and persists
   * nothing. Missing ledger fields read as 0 or "No investment"; the ledger has
   * no `investmentStats`, so both of its counts are 0.
   */
  function Get(db: Db, u: UserId, now: Millis, dayOf: Millis -> int): (r: Overview)
    reads db
    ensures r.stats.totalInvestmentAmount == SumAmounts(OwnedInvested(db.positions, u))
    ensures r.stats.totalCurrentReturns.Num? <==> AllScheduled(Owned(db.positions, u, ACTIVE))
    ensures r.summary.activeInvestmentsCount == |r.active| == |Owned(db.positions, u, ACTIVE)|
    ensures r.summary.completedInvestmentsCount == |r.completed|
  {
    var active := Owned(db.positions, u, ACTIVE);
    var completed := Owned(db.positions, u, COMPLETED);
    var totalActive := SumAmounts(active);
    var totalCompleted := SumAmounts(completed);
    var account := if u in db.infos then
        var info := db.infos[u];
        Account(u, info.accountBalance, if info.package == "" then NO_INVESTMENT else info.package,
                info.totalReturnsEarned, info.lastInvestmentDate)
      else Account(u, 0.0, NO_INVESTMENT, 0.0, None);
    InvestedSplits(db.positions, u);
    Overview(ShowActive(active, now, dayOf), completed,
      Stats(totalActive, totalCompleted, totalActive + totalCompleted,
            SumShownReturns(active, now, dayOf), SumStoredReturns(completed)),
      account,
      Summary(|active|, |completed|, 0, 0))
  }

  /** The invested total is the active total plus the completed total. */
  lemma {:induction false} InvestedSplits(ps: seq<Position>, u: UserId)
    ensures SumAmounts(OwnedInvested(ps, u)) == SumAmounts(Owned(ps, u, ACTIVE)) + SumAmounts(Owned(ps, u, COMPLETED))
  {
    if ps != [] {
      var init := ps[..|ps| - 1];
      var p := ps[|ps| - 1];
      InvestedSplits(init, u);
      var inv, act, com := OwnedInvested(init, u), Owned(init, u, ACTIVE), Owned(init, u, COMPLETED);
      if p.userId == u && p.status == ACTIVE {
        assert OwnedInvested(ps, u) == inv + [p];
        assert Owned(ps, u, ACTIVE) == act + [p];
        assert Owned(ps, u, COMPLETED) == com;
        SumAmountsSnoc(inv, p);
        SumAmountsSnoc(act, p);
      } else if p.userId == u && p.status == COMPLETED {
        assert OwnedInvested(ps, u) == inv + [p];
        assert Owned(ps, u, ACTIVE) == act;
        assert Owned(ps, u, COMPLETED) == com + [p];
        SumAmountsSnoc(inv, p);
        SumAmountsSnoc(com, p);
      } else {
        assert OwnedInvested(ps, u) == inv;
        assert Owned(ps, u, ACTIVE) == act;
        assert Owned(ps, u, COMPLETED) == com;
      }
    }
  }

  lemma SumAmountsSnoc(ps: seq<Position>, p: Position)
    ensures SumAmounts(ps + [p]) == SumAmounts(ps) + p.amount
  {
    assert (ps + [p])[..|ps|] == ps;
  }

  /**
   * What GET shows for an active position is what a batch at the same `now`
   * stores for it, whenever its last update is not in the future.
   */
  lemma ShownReturnMatchesBatch(p: Position, now: Millis, dayOf: Millis -> int, hasLedger: bool)
    requires p.schedule.Some? && p.schedule.value.lastReturnUpdate <= now
    ensures ShownReturn(p, now, dayOf) == StoredReturn(PositionAfter(p, now, dayOf, hasLedger))
  {
  }
}
