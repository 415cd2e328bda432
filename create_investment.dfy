/**
 * Opening an investment and changing a position's status
 * (app/api/create-investment/route.ts). The route keeps its own plan table,
 * which is not the catalog the pages show.
 */
module CreateInvestmentRoute {
  import opened Wrappers
  import opened Models
  import opened Store
  import opened Http
  import Js
  import InvestmentPlans

  /** One entry of the server's plan table: its key, display name and deposit bounds. */
  datatype ServerPlan = ServerPlan(key: string, name: string, min: nat, max: nat)

  const SERVER_PLANS: seq<ServerPlan> := [
    ServerPlan("BASIC", "Basic", 1000, 1999),
    ServerPlan("DELUXE", "Deluxe", 2000, 4999),
    ServerPlan("ENTERPRISE", "Enterprise", 5000, 9999),
    ServerPlan("GOLD", "Gold", 10000, 14999),
    ServerPlan("PREMIUM", "Premium", 15000, 19999),
    ServerPlan("PLATINUM", "Platinum", 20000, 100000)
  ]

  const INFO_NOT_FOUND := "Investment information not found"
  const ACTIVE_ALREADY := "You have an active investment already"
  const NOT_ENOUGH_BALANCE := "You do not have enough balance for this plan"
  const INVALID_PLAN := "Invalid investment plan"
  const CREATED_MESSAGE := "Investment created successfully"
  const PATCH_FIELDS_REQUIRED := "Investment ID and status are required"
  const INVESTMENT_NOT_FOUND := "Investment not found"

  /** The first plan of `plans` whose display name is `name` (`Object.keys(...).find`). */
  function FindServerPlan(plans: seq<ServerPlan>, name: string): (r: Option<ServerPlan>)
    ensures r.None? <==> forall i :: 0 <= i < |plans| ==> plans[i].name != name
    ensures r.Some? ==>
      exists i ::
        0 <= i < |plans| && plans[i] == r.value && r.value.name == name
        && forall j :: 0 <= j < i ==> plans[j].name != name
  {
    if plans == [] then None
    else if plans[0].name == name then Some(plans[0])
    else
      var r := FindServerPlan(plans[1..], name);
      assert r.Some? ==>
        exists i ::
          0 <= i < |plans[1..]| && plans[1..][i] == r.value
          && forall j :: 0 <= j < i ==> plans[1..][j].name != name;
      assert r.Some? ==>
        exists i ::
          1 <= i < |plans| && plans[i] == r.value
          && forall j :: 0 <= j < i ==> plans[j].name != name;
      r
  }

  /**
   * `validateInvestment`: a ledger must exist, hold no current investment, and
   * not have a balance below the amount. A NaN amount passes the balance check,
   * because `balance < NaN` is false.
   */
  function ValidateInvestment(info: Option<InvestmentInfo>, amount: Js.Number): (r: Result<InvestmentInfo, string>)
    ensures r.Ok? <==>
      info.Some? && info.value.investmentAmount <= 0.0 && !Js.RealLess(info.value.accountBalance, amount)
    ensures r.Ok? ==> r.value == info.value
    ensures info.None? ==> r == Err(INFO_NOT_FOUND)
    ensures info.Some? && info.value.investmentAmount > 0.0 ==> r == Err(ACTIVE_ALREADY)
    ensures info.Some? && info.value.investmentAmount <= 0.0 && Js.RealLess(info.value.accountBalance, amount)
      ==> r == Err(NOT_ENOUGH_BALANCE)
  {
    match info
    case None => Err(INFO_NOT_FOUND)
    case Some(i) =>
      if i.investmentAmount > 0.0 then Err(ACTIVE_ALREADY)
      else if Js.RealLess(i.accountBalance, amount) then Err(NOT_ENOUGH_BALANCE)
      else Ok(i)
  }

  /** The message of the bounds check, with the bounds written as `toString` writes them. */
  function AmountMessage(plan: ServerPlan): string
  {
    "Amount must be between $" + Js.NatToString(plan.min) + " and $" + Js.NatToString(plan.max)
      + " for " + plan.name + " plan"
  }

  /** `!amount || amount < plan.min || amount > plan.max` */
  predicate AmountOutOfRange(plan: ServerPlan, amount: Js.Number)
  {
    !Js.Truthy(amount) || amount.value < plan.min as real || amount.value > plan.max as real
  }

  /**
   * Every guard of POST in the route's order: the ledger checks, then the plan
   * name, then the bounds. `Ok` carries the plan and the amount to invest.
   */
  function CheckOpen(info: Option<InvestmentInfo>, planName: string, amount: Js.Number): (r: Result<(ServerPlan, real), Response>)
    ensures r.Ok? <==>
      ValidateInvestment(info, amount).Ok?
      && FindServerPlan(SERVER_PLANS, planName).Some?
      && !AmountOutOfRange(FindServerPlan(SERVER_PLANS, planName).value, amount)
    ensures r.Err? ==> r.error.status == BAD_REQUEST
    ensures ValidateInvestment(info, amount).Err? ==> r == Err(Response(BAD_REQUEST, ValidateInvestment(info, amount).error))
    ensures ValidateInvestment(info, amount).Ok? && FindServerPlan(SERVER_PLANS, planName).None?
      ==> r == Err(Response(BAD_REQUEST, INVALID_PLAN))
    ensures ValidateInvestment(info, amount).Ok? && FindServerPlan(SERVER_PLANS, planName).Some?
      && AmountOutOfRange(FindServerPlan(SERVER_PLANS, planName).value, amount)
      ==> r == Err(Response(BAD_REQUEST, AmountMessage(FindServerPlan(SERVER_PLANS, planName).value)))
    ensures r.Ok? ==>
      var (plan, a) := r.value;
      info.Some? && amount == Js.Num(a) && plan.name == planName && plan in SERVER_PLANS
      && plan.min as real <= a <= plan.max as real && a > 0.0
      && info.value.investmentAmount <= 0.0 && a <= info.value.accountBalance
  {
    match ValidateInvestment(info, amount)
    case Err(msg) => Err(Response(BAD_REQUEST, msg))
    case Ok(_) =>
      match FindServerPlan(SERVER_PLANS, planName)
      case None => Err(Response(BAD_REQUEST, INVALID_PLAN))
      case Some(plan) =>
        if AmountOutOfRange(plan, amount) then Err(Response(BAD_REQUEST, AmountMessage(plan)))
        else Ok((plan, amount.value))
  }

  /**
   * `updateInvestmentInfo`: move `amount` from the balance into the invested
   * amount, record the plan and stamp the investment date.
   */
  function Invested(info: InvestmentInfo, amount: real, planName: string, now: Millis): (r: InvestmentInfo)
    ensures r.accountBalance == info.accountBalance - amount
    ensures r.investmentAmount == info.investmentAmount + amount
    ensures r.accountBalance + r.investmentAmount == info.accountBalance + info.investmentAmount
    ensures r.package == planName && r.lastInvestmentDate == Some(now) && r.updatedAt == now
    ensures r.totalProfit == info.totalProfit && r.totalReturnsEarned == info.totalReturnsEarned
    ensures r.createdAt == info.createdAt
  {
    info.(accountBalance := info.accountBalance - amount,
          investmentAmount := info.investmentAmount + amount,
          package := planName,
          lastInvestmentDate := Some(now),
          updatedAt := now)
  }

  /**
   * POST: open an investment of `amount` in plan `planName` for `caller`. On
   * success one active position is appended and the caller's ledger moves the
   * amount from balance to investment; on any failure nothing changes.
   */
  method Post(db: Db, caller: UserId, planName: string, amount: Js.Number, now: Millis) returns (resp: Response)
    modifies db
    ensures db.users == old(db.users) && db.kycs == old(db.kycs)
    ensures db.proofs == old(db.proofs) && db.withdrawals == old(db.withdrawals)
    ensures var c := CheckOpen(InfoOf(old(db.infos), caller), planName, amount);
      && (c.Err? ==> resp == c.error && db.positions == old(db.positions) && db.infos == old(db.infos))
      && (c.Ok? ==>
            resp == Response(CREATED, CREATED_MESSAGE)
            && db.positions == old(db.positions) + [CreatedPosition(caller, planName, c.value.1, Some(ACTIVE), now)]
            && db.infos == old(db.infos)[caller := Invested(old(db.infos)[caller], c.value.1, planName, now)])
    ensures resp.status == CREATED ==>
      caller in old(db.infos) && caller in db.infos
      && db.infos[caller].accountBalance >= 0.0
      && db.infos[caller].accountBalance + db.infos[caller].investmentAmount
         == old(db.infos)[caller].accountBalance + old(db.infos)[caller].investmentAmount
  {
    var validated := ValidateInvestment(InfoOf(db.infos, caller), amount);
    if validated.Err? {
      return Response(BAD_REQUEST, validated.error);
    }
    var found := FindServerPlan(SERVER_PLANS, planName);
    if found.None? {
      return Response(BAD_REQUEST, INVALID_PLAN);
    }
    var plan := found.value;
    if AmountOutOfRange(plan, amount) {
      return Response(BAD_REQUEST, AmountMessage(plan));
    }
    db.positions := db.positions + [CreatedPosition(caller, planName, amount.value, Some(ACTIVE), now)];
    db.infos := db.infos[caller := Invested(db.infos[caller], amount.value, planName, now)];
    resp := Response(CREATED, CREATED_MESSAGE);
  }

  /**
   * PATCH: set the status of the caller's own position `investmentId` to any
   * non-empty string; the ledger is not touched. A position of another user is
   * reported as not found. The success response carries the updated position.
   */
  method Patch(db: Db, caller: UserId, investmentId: Option<nat>, status: string) returns (resp: Response)
    modifies db
    ensures db.users == old(db.users) && db.infos == old(db.infos) && db.kycs == old(db.kycs)
    ensures db.proofs == old(db.proofs) && db.withdrawals == old(db.withdrawals)
    ensures investmentId.None? || status == "" ==>
      resp == Response(BAD_REQUEST, PATCH_FIELDS_REQUIRED) && db.positions == old(db.positions)
    ensures investmentId.Some? && status != "" ==>
      var id := investmentId.value;
      if id < |old(db.positions)| && old(db.positions)[id].userId == caller then
        resp.status == OK && db.positions == old(db.positions)[id := old(db.positions)[id].(status := status)]
      else
        resp == Response(NOT_FOUND, INVESTMENT_NOT_FOUND) && db.positions == old(db.positions)
  {
    if investmentId.None? || status == "" {
      return Response(BAD_REQUEST, PATCH_FIELDS_REQUIRED);
    }
    var id := investmentId.value;
    if id < |db.positions| && db.positions[id].userId == caller {
      db.positions := db.positions[id := db.positions[id].(status := status)];
      return Response(OK, "");
    }
    resp := Response(NOT_FOUND, INVESTMENT_NOT_FOUND);
  }

  /** Opening succeeds only with no current investment, whatever plan and amount are asked for. */
  lemma ActiveInvestmentBlocksOpening(info: InvestmentInfo, planName: string, amount: Js.Number)
    requires info.investmentAmount > 0.0
    ensures CheckOpen(Some(info), planName, amount) == Err(Response(BAD_REQUEST, ACTIVE_ALREADY))
  {
  }

  /** The display names of the server table, in order. */
  lemma ServerPlanNames()
    ensures |SERVER_PLANS| == 6
    ensures SERVER_PLANS[0].name == "Basic" && SERVER_PLANS[1].name == "Deluxe"
    ensures SERVER_PLANS[2].name == "Enterprise" && SERVER_PLANS[3].name == "Gold"
    ensures SERVER_PLANS[4].name == "Premium" && SERVER_PLANS[5].name == "Platinum"
  {
  }

  /**
   * The server table's ranges are ordered and contiguous: each plan's
   * maximum plus one is the next plan's minimum, so the ranges of two
   * different plans never overlap, and the plan names are distinct.
   */
  lemma {:induction false} ServerPlansOrdered()
    ensures forall i :: 0 <= i < |SERVER_PLANS| ==> SERVER_PLANS[i].min <= SERVER_PLANS[i].max
    ensures forall i :: 0 <= i < |SERVER_PLANS| - 1 ==> SERVER_PLANS[i].max + 1 == SERVER_PLANS[i + 1].min
    ensures forall i, j :: 0 <= i < j < |SERVER_PLANS| ==> SERVER_PLANS[i].max < SERVER_PLANS[j].min
    ensures forall i, j :: 0 <= i < j < |SERVER_PLANS| ==> SERVER_PLANS[i].name != SERVER_PLANS[j].name
  {
    var p := SERVER_PLANS;
    ServerPlanNames();
    assert forall i :: 0 <= i < |p| - 1 ==> p[i].max + 1 == p[i + 1].min;
    forall i, j | 0 <= i < j < |p|
      ensures p[i].max < p[j].min
    {
      var k := i;
      while k < j - 1
        invariant i <= k < j
        invariant p[i].max < p[k + 1].min
      {
        k := k + 1;
      }
    }
  }

  /**
   * Every whole amount from 1000 to 100000 lies in the range of exactly one
   * plan of the server table, and no other amount lies in any.
   */
  lemma {:induction false} ServerPlanForAmount(a: int)
    ensures forall i, j ::
      (0 <= i < |SERVER_PLANS| && 0 <= j < |SERVER_PLANS|
       && SERVER_PLANS[i].min <= a <= SERVER_PLANS[i].max
       && SERVER_PLANS[j].min <= a <= SERVER_PLANS[j].max) ==> i == j
    ensures 1000 <= a <= 100000 <==>
      exists i :: 0 <= i < |SERVER_PLANS| && SERVER_PLANS[i].min <= a <= SERVER_PLANS[i].max
  {
    var p := SERVER_PLANS;
    ServerPlansOrdered();
    if 1000 <= a <= 100000 {
      var i := if a <= 1999 then 0 else if a <= 4999 then 1 else if a <= 9999 then 2
        else if a <= 14999 then 3 else if a <= 19999 then 4 else 5;
      assert p[i].min <= a <= p[i].max;
    }
    forall i | 0 <= i < |p| && p[i].min <= a <= p[i].max
      ensures 1000 <= a <= 100000
    {
      assert p[0].min <= p[i].min && p[i].max <= p[5].max by {
        if 0 < i { assert p[0].max < p[i].min; }
        if i < 5 { assert p[i].max < p[5].min; }
      }
    }
  }

  /**
   * The server table and the catalog the pages show agree on the first five
   * plans, disagree on Platinum's upper bound, and the server knows none of the
   * three largest catalog plans.
   */
  lemma CatalogDivergence()
    ensures forall i :: 0 <= i < 5 ==>
      SERVER_PLANS[i].name == InvestmentPlans.INVESTMENT_PLANS[i].planName
      && SERVER_PLANS[i].min == InvestmentPlans.INVESTMENT_PLANS[i].min
      && SERVER_PLANS[i].max == InvestmentPlans.INVESTMENT_PLANS[i].max
    ensures SERVER_PLANS[5].name == InvestmentPlans.INVESTMENT_PLANS[5].planName == "Platinum"
    ensures SERVER_PLANS[5].min == InvestmentPlans.INVESTMENT_PLANS[5].min
    ensures SERVER_PLANS[5].max == 100000 && InvestmentPlans.INVESTMENT_PLANS[5].max == 29999
    ensures forall i :: 6 <= i < 9 ==> FindServerPlan(SERVER_PLANS, InvestmentPlans.INVESTMENT_PLANS[i].planName).None?
  {
    ServerPlanNames();
    var c := InvestmentPlans.INVESTMENT_PLANS;
    assert c[6].planName == "VIP" && c[7].planName == "Silver Platinum" && c[8].planName == "Gold Platinum";
    forall i | 6 <= i < 9
      ensures FindServerPlan(SERVER_PLANS, c[i].planName).None?
    {
      NotAServerName(c[i].planName);
    }
  }

  /** A name other than the six server names finds no plan. */
  lemma NotAServerName(name: string)
    requires name !in {"Basic", "Deluxe", "Enterprise", "Gold", "Premium", "Platinum"}
    ensures FindServerPlan(SERVER_PLANS, name).None?
  {
    ServerPlanNames();
  }

  /** A catalog plan the server does not know is refused once the ledger checks pass. */
  lemma {:induction false} CatalogOnlyPlanRefused(info: InvestmentInfo, i: nat, amount: Js.Number)
    requires 6 <= i < 9
    requires info.investmentAmount <= 0.0 && !Js.RealLess(info.accountBalance, amount)
    ensures CheckOpen(Some(info), InvestmentPlans.INVESTMENT_PLANS[i].planName, amount)
      == Err(Response(BAD_REQUEST, INVALID_PLAN))
  {
    CatalogDivergence();
  }

  /** `toString()` of the Basic plan's bounds. */
  lemma BasicBoundsText()
    ensures Js.NatToString(1000) == "1000" && Js.NatToString(1999) == "1999"
  {
    assert Js.NatToString(10) == "10";
    assert Js.NatToString(100) == "100";
    assert Js.NatToString(19) == "19";
    assert Js.NatToString(199) == "199";
  }

  /** The bounds message of the Basic plan, with its bounds written out. */
  lemma BasicAmountMessage()
    ensures AmountMessage(SERVER_PLANS[0])
      == "Amount must be between $" + "1000" + " and $" + "1999" + " for " + "Basic" + " plan"
  {
    BasicBoundsText();
  }

  /**
   * A NaN amount (a non-numeric form field) passes the balance check
   * and is stopped by the bounds check, with the plan's bounds in the message.
   */
  lemma NaNAmountStoppedByBounds(info: InvestmentInfo)
    requires info.investmentAmount <= 0.0
    ensures CheckOpen(Some(info), "Basic", Js.NaN)
      == Err(Response(BAD_REQUEST, "Amount must be between $" + "1000" + " and $" + "1999" + " for " + "Basic" + " plan"))
  {
    assert ValidateInvestment(Some(info), Js.NaN).Ok?;
    assert FindServerPlan(SERVER_PLANS, "Basic") == Some(SERVER_PLANS[0]);
    BasicAmountMessage();
  }
}
