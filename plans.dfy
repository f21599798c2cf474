/** The PLANS table: four subscription plans, amounts in kobo (100 kobo = 1 naira). */
module Plans {
  import opened Wrappers

  const SecondsPerDay: nat := 86400

  datatype Plan = Plan(name: string, amount: nat, durationDays: nat)

  /** The plan ids in the table's order, which is also the order of the upgrade menu. */
  const PlanIds: seq<string> := ["daily", "weekly", "monthly", "yearly"]

  /** PLANS.get(id): a plan exactly for the four ids; every plan costs something and lasts at least a day. */
  function Lookup(id: string): (r: Option<Plan>)
    ensures r.Some? <==> id in PlanIds
    ensures r.Some? ==> r.value.amount > 0 && r.value.durationDays >= 1
  {
    if id == "daily" then Some(Plan("Daily Plan", 100, 1))
    else if id == "weekly" then Some(Plan("Weekly Plan", 500, 7))
    else if id == "monthly" then Some(Plan("Monthly Plan", 1500, 30))
    else if id == "yearly" then Some(Plan("Yearly Plan", 15000, 365))
    else None
  }

  /** The plan ids are distinct and none contains the '_' that callback data is split on. */
  lemma PlanIdsWellFormed()
    ensures forall i, j :: 0 <= i < j < |PlanIds| ==> PlanIds[i] != PlanIds[j]
    ensures forall i :: 0 <= i < |PlanIds| ==> '_' !in PlanIds[i]
  {
  }
}
