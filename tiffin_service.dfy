/** The tiffin service: monthly meal plans, a summary of several plans, and
    add-ons that raise a plan's daily rate. Each operation returns a new
    record. A field that is missing from the request is None. */
module TiffinService {
  import opened Wrappers
  import Sequences

  datatype Plan = Plan(name: string, mealType: string, days: int, dailyRate: int, totalCost: int)

  /** The daily rate of each meal type. */
  function Rate(mealType: string): Option<int> {
    match mealType
    case "veg" => Some(80)
    case "nonveg" => Some(120)
    case "jain" => Some(90)
    case _ => None
  }

  /** A plan for the named customer, veg for 30 days unless told otherwise,
      costing the daily rate for every day; None when the name is missing or
      empty or the meal type is unknown. Calling with no argument is a
      request with no fields. */
  function CreateTiffinPlan(name: Option<string>, mealType: Option<string>, days: Option<int>): (r: Option<Plan>)
    ensures r.Some? <==> name.Some? && name.value != "" && Rate(mealType.GetOr("veg")).Some?
    ensures r.Some? ==> r.value.name == name.value && r.value.mealType == mealType.GetOr("veg") &&
                        r.value.days == days.GetOr(30)
    ensures r.Some? ==> r.value.dailyRate == Rate(r.value.mealType).value &&
                        r.value.totalCost == r.value.dailyRate * r.value.days
  {
    var m := mealType.GetOr("veg");
    var d := days.GetOr(30);
    if name.None? || name.value == "" || Rate(m).None? then None
    else Some(Plan(name.value, m, d, Rate(m).value, Rate(m).value * d))
  }

  /** The number of customers, the revenue and the plans per meal type. */
  datatype Summary = Summary(totalCustomers: nat, totalRevenue: int, mealBreakdown: map<string, nat>)

  function Revenue(plans: seq<Plan>): int {
    if plans == [] then 0 else plans[0].totalCost + Revenue(plans[1..])
  }

  /** The number of plans of that meal type. */
  function CountOf(plans: seq<Plan>, mealType: string): nat {
    if plans == [] then 0 else (if plans[0].mealType == mealType then 1 else 0) + CountOf(plans[1..], mealType)
  }

  /** The count of `key` raised by one, starting from 0. */
  function Bump(counts: map<string, nat>, key: string): map<string, nat> {
    counts[key := (if key in counts then counts[key] else 0) + 1]
  }

  function Breakdown(plans: seq<Plan>): map<string, nat> {
    if plans == [] then map[] else Bump(Breakdown(plans[1..]), plans[0].mealType)
  }

  /** The breakdown lists exactly the meal types that occur, each with the
      number of plans of that type. */
  lemma {:induction false} BreakdownCounts(plans: seq<Plan>)
    ensures forall m :: m in Breakdown(plans) <==> CountOf(plans, m) > 0
    ensures forall m :: m in Breakdown(plans) ==> Breakdown(plans)[m] == CountOf(plans, m)
  {
    if plans != [] {
      BreakdownCounts(plans[1..]);
    }
  }

  /** A summary of the plans; None when there are none. */
  function CombinePlans(plans: seq<Plan>): (r: Option<Summary>)
    ensures r.None? <==> plans == []
    ensures r.Some? ==> r.value.totalCustomers == |plans| && r.value.totalRevenue == Revenue(plans)
    ensures r.Some? ==> forall m :: m in r.value.mealBreakdown <==> CountOf(plans, m) > 0
    ensures r.Some? ==> forall m :: m in r.value.mealBreakdown ==> r.value.mealBreakdown[m] == CountOf(plans, m)
  {
    if plans == [] then None
    else
      BreakdownCounts(plans);
      Some(Summary(|plans|, Revenue(plans), Breakdown(plans)))
  }

  /** Revenue and counts split over a concatenation of plan lists. */
  lemma {:induction false} CombineAppend(a: seq<Plan>, b: seq<Plan>, m: string)
    ensures Revenue(a + b) == Revenue(a) + Revenue(b)
    ensures CountOf(a + b, m) == CountOf(a, m) + CountOf(b, m)
  {
    if a == [] {
      assert a + b == b;
    } else {
      assert (a + b)[1..] == a[1..] + b;
      CombineAppend(a[1..], b, m);
    }
  }

  /** Every plan is counted under exactly one meal type. */
  lemma {:induction false} CountsAddUp(plans: seq<Plan>, types: seq<string>)
    requires forall i :: 0 <= i < |plans| ==> plans[i].mealType in types
    requires forall i, j :: 0 <= i < j < |types| ==> types[i] != types[j]
    ensures CountSum(plans, types) == |plans|
  {
    if plans == [] {
      CountSumOfNone(types);
    } else {
      assert plans[0].mealType in types;
      assert forall i :: 0 <= i < |plans[1..]| ==> plans[1..][i] == plans[i + 1];
      CountsAddUp(plans[1..], types);
      CountSumStep(plans, types);
    }
  }

  /** The counts of the listed meal types, added up. */
  function CountSum(plans: seq<Plan>, types: seq<string>): nat {
    if types == [] then 0 else CountOf(plans, types[0]) + CountSum(plans, types[1..])
  }

  lemma {:induction false} CountSumOfNone(types: seq<string>)
    ensures CountSum([], types) == 0
  {
    if types != [] {
      CountSumOfNone(types[1..]);
    }
  }

  lemma {:induction false} CountSumStep(plans: seq<Plan>, types: seq<string>)
    requires plans != []
    requires forall i, j :: 0 <= i < j < |types| ==> types[i] != types[j]
    ensures CountSum(plans, types) == CountSum(plans[1..], types) + (if plans[0].mealType in types then 1 else 0)
  {
    if types != [] {
      CountSumStep(plans, types[1..]);
      assert plans[0].mealType in types <==> plans[0].mealType == types[0] || plans[0].mealType in types[1..];
    }
  }

  datatype Addon = Addon(name: string, price: int)

  /** A plan with add-ons and the add-ons' names. */
  datatype PlanWithAddons = PlanWithAddons(plan: Plan, addonNames: seq<string>)

  function AddonTotal(addons: seq<Addon>): int {
    if addons == [] then 0 else addons[0].price + AddonTotal(addons[1..])
  }

  function AddonName(a: Addon): string { a.name }

  /** A new plan whose daily rate is raised by the price of every add-on and
      whose cost is recomputed for the same days, with the add-on names in
      order; None when there is no plan. */
  function ApplyAddons(plan: Option<Plan>, addons: seq<Addon>): (r: Option<PlanWithAddons>)
    ensures r.None? <==> plan.None?
    ensures r.Some? ==> var p, q := plan.value, r.value.plan;
                        q.name == p.name && q.mealType == p.mealType && q.days == p.days &&
                        q.dailyRate == p.dailyRate + AddonTotal(addons) &&
                        q.totalCost == q.dailyRate * q.days
    ensures r.Some? ==> |r.value.addonNames| == |addons| &&
                        forall i :: 0 <= i < |addons| ==> r.value.addonNames[i] == addons[i].name
  {
    match plan
    case None => None
    case Some(p) =>
      var rate := p.dailyRate + AddonTotal(addons);
      Some(PlanWithAddons(Plan(p.name, p.mealType, p.days, rate, rate * p.days), Sequences.Map(addons, AddonName)))
  }

  lemma {:induction false} AddonTotalAppend(a: seq<Addon>, b: seq<Addon>)
    ensures AddonTotal(a + b) == AddonTotal(a) + AddonTotal(b)
  {
    if a == [] {
      assert a + b == b;
    } else {
      assert (a + b)[1..] == a[1..] + b;
      AddonTotalAppend(a[1..], b);
    }
  }

  /** Adding add-ons in two rounds gives the same rate and cost as adding
      them all at once. */
  lemma ApplyAddonsTwice(p: Plan, a: seq<Addon>, b: seq<Addon>)
    ensures ApplyAddons(Some(ApplyAddons(Some(p), a).value.plan), b).value.plan == ApplyAddons(Some(p), a + b).value.plan
  {
    AddonTotalAppend(a, b);
  }

  lemma CreateTiffinPlanExamples()
    ensures CreateTiffinPlan(Some("Rahul"), None, None) == Some(Plan("Rahul", "veg", 30, 80, 2400))
    ensures CreateTiffinPlan(Some("Amit"), Some("nonveg"), Some(15)) == Some(Plan("Amit", "nonveg", 15, 120, 1800))
    ensures CreateTiffinPlan(Some("Priya"), Some("jain"), Some(10)) == Some(Plan("Priya", "jain", 10, 90, 900))
    ensures CreateTiffinPlan(Some("Neha"), Some("veg"), Some(7)) == Some(Plan("Neha", "veg", 7, 80, 560))
    ensures CreateTiffinPlan(Some("Test"), Some("keto"), None) == None
    ensures CreateTiffinPlan(None, Some("veg"), None) == None
    ensures CreateTiffinPlan(Some(""), Some("veg"), None) == None
    ensures CreateTiffinPlan(None, None, None) == None
  {
  }

  function Plan1(): Plan { Plan("Rahul", "veg", 30, 80, 2400) }
  function Plan2(): Plan { Plan("Amit", "nonveg", 15, 120, 1800) }
  function Plan3(): Plan { Plan("Priya", "veg", 30, 80, 2400) }

  lemma CombinePlansExamples()
    ensures CombinePlans([Plan1(), Plan2()]).value.totalCustomers == 2
    ensures CombinePlans([Plan1(), Plan2()]).value.totalRevenue == 4200
    ensures var s := CombinePlans([Plan1(), Plan2(), Plan3()]).value;
            s.totalCustomers == 3 && s.totalRevenue == 6600 &&
            s.mealBreakdown["veg"] == 2 && s.mealBreakdown["nonveg"] == 1
    ensures CombinePlans([]) == None
    ensures CombinePlans([Plan1()]).value.totalRevenue == 2400
  {
    var ps := [Plan1(), Plan2(), Plan3()];
    assert ps[1..] == [Plan2(), Plan3()] && ps[1..][1..] == [Plan3()];
    assert CountOf(ps, "veg") == 2 && CountOf(ps, "nonveg") == 1;
  }

  lemma ApplyAddonsExamples()
    ensures ApplyAddons(Some(Plan1()), [Addon("raita", 15)]).value.plan.dailyRate == 95
    ensures ApplyAddons(Some(Plan1()), [Addon("raita", 15)]).value.plan.totalCost == 2850
    ensures var r := ApplyAddons(Some(Plan1()), [Addon("raita", 15), Addon("papad", 10)]).value;
            r.plan.dailyRate == 105 && r.plan.totalCost == 3150 && r.addonNames == ["raita", "papad"]
    ensures ApplyAddons(None, [Addon("raita", 15)]) == None
    ensures var r := ApplyAddons(Some(Plan1()), []).value;
            r.plan == Plan1() && r.addonNames == []
  {
    var two := [Addon("raita", 15), Addon("papad", 10)];
    assert two[1..] == [Addon("papad", 10)];
  }
}
