/**
 * The investment plan catalog shared with the pages (data/investmentPlan.ts):
 * nine plans with deposit bounds, a seven-day duration and a 0.149 return rate.
 * The display strings (price, minDeposit, maxDeposit, minReturns, maxReturns,
 * giftBonus) are kept as text, as the catalog holds them.
 */
module InvestmentPlans {

  datatype CatalogPlan = CatalogPlan(
    id: nat,
    planName: string,
    price: string,
    minDeposit: string,
    maxDeposit: string,
    min: int,
    max: int,
    minReturns: string,
    maxReturns: string,
    giftBonus: string,
    durationInDay: nat,
    returnRate: real,
    isPopular: bool)

  const INVESTMENT_PLANS: seq<CatalogPlan> := [
    CatalogPlan(1, "Basic", "1,000", "1,000", "1,999", 1000, 1999, "1,350", "2,700", "250", 7, 0.149, false),
    CatalogPlan(2, "Deluxe", "2,000", "2,000", "4,999", 2000, 4999, "2,700", "6,750", "500", 7, 0.149, true),
    CatalogPlan(3, "Enterprise", "5,000", "5,000", "9,999", 5000, 9999, "6,750", "11,800", "850", 7, 0.149, false),
    CatalogPlan(4, "Gold", "10,000", "10,000", "14,999", 10000, 14999, "6,750", "11,800", "1,250", 7, 0.149, false),
    CatalogPlan(5, "Premium", "15,000", "15,000", "19,999", 15000, 19999, "20,250", "27,000", "1,500", 7, 0.149, false),
    CatalogPlan(6, "Platinum", "20,000", "20,000", "29,999", 20000, 29999, "27,000", "40,500", "1900", 7, 0.149, false),
    CatalogPlan(7, "VIP", "30,000", "30,000", "49,999", 30000, 49999, "40,500", "67,500", "2,500", 7, 0.149, false),
    CatalogPlan(8, "Silver Platinum", "50,000", "50,000", "99,999", 50000, 99999, "67,500", "135,000", "5,000", 7, 0.149, false),
    CatalogPlan(9, "Gold Platinum", "100,000", "100,000", "1,000,000", 100000, 1000000, "135,000", "1,350,000", "20,000", 7, 0.149, false)
  ]

  /** The number of plans in `plans` marked popular. */
  function PopularCount(plans: seq<CatalogPlan>): (n: nat)
    ensures n <= |plans|
    ensures n == 0 <==> forall i :: 0 <= i < |plans| ==> !plans[i].isPopular
  {
    if plans == [] then 0
    else (if plans[0].isPopular then 1 else 0) + PopularCount(plans[1..])
  }

  /** Nine plans, numbered 1 to 9 in order, with pairwise distinct names. */
  lemma CatalogShape()
    ensures |INVESTMENT_PLANS| == 9
    ensures forall i :: 0 <= i < 9 ==> INVESTMENT_PLANS[i].id == i + 1
    ensures forall i, j :: 0 <= i < j < 9 ==> INVESTMENT_PLANS[i].planName != INVESTMENT_PLANS[j].planName
  {
  }

  /** Every plan's range is non-empty, lasts seven days and returns 0.149. */
  lemma CatalogBounds()
    ensures forall i :: 0 <= i < |INVESTMENT_PLANS| ==>
      INVESTMENT_PLANS[i].min <= INVESTMENT_PLANS[i].max
      && INVESTMENT_PLANS[i].durationInDay == 7
      && INVESTMENT_PLANS[i].returnRate == 0.149
  {
  }

  /** Consecutive ranges meet without a gap or an overlap. */
  lemma CatalogContiguous()
    ensures forall i :: 0 <= i < |INVESTMENT_PLANS| - 1 ==>
      INVESTMENT_PLANS[i].max + 1 == INVESTMENT_PLANS[i + 1].min
  {
  }

  /** Exactly one plan is marked popular, and it is Deluxe. */
  lemma {:induction false} OnePopularPlan()
    ensures PopularCount(INVESTMENT_PLANS) == 1
    ensures forall i :: 0 <= i < |INVESTMENT_PLANS| ==>
      (INVESTMENT_PLANS[i].isPopular <==> INVESTMENT_PLANS[i].planName == "Deluxe")
  {
    OnlyDeluxePopular(INVESTMENT_PLANS);
    var p := INVESTMENT_PLANS;
    assert PopularCount(p[2..]) == 0;
    assert p[1..][1..] == p[2..];
  }

  lemma OnlyDeluxePopular(p: seq<CatalogPlan>)
    requires p == INVESTMENT_PLANS
    ensures forall i :: 0 <= i < |p| ==> (p[i].isPopular <==> p[i].planName == "Deluxe")
  {
  }
}
