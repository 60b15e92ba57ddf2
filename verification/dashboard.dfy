/**
 * The admin dashboard's summary cards: lead counts per plan and the premium rate.
 */
module Dashboard {
  import opened Leads

  datatype Stats = Stats(total: nat, free: nat, premium: nat)

  /** `leads.filter(lead => lead.selected_plan === p)`: the leads on plan `p`, in order. */
  function PlanFilter(leads: seq<Lead>, p: Plan): (r: seq<Lead>)
    ensures |r| <= |leads|
    ensures forall k :: 0 <= k < |r| ==> r[k].selectedPlan == Some(p) && r[k] in leads
    ensures forall i :: 0 <= i < |leads| && leads[i].selectedPlan == Some(p) ==> leads[i] in r
  {
    if leads == [] then []
    else (if leads[0].selectedPlan == Some(p) then [leads[0]] else []) + PlanFilter(leads[1..], p)
  }

  /** The filter keeps every lead on the plan as often as the list holds it and drops
      every other lead, so its length is the number of leads on the plan. */
  lemma {:induction false} PlanFilterCounts(leads: seq<Lead>, p: Plan)
    ensures forall y :: multiset(PlanFilter(leads, p))[y] ==
                          if y.selectedPlan == Some(p) then multiset(leads)[y] else 0
  {
    if leads != [] {
      PlanFilterCounts(leads[1..], p);
      assert leads == [leads[0]] + leads[1..];
    }
  }

  /** The counts never exceed the total: a lead is on at most one plan, and a lead
      stored without a plan is on neither. */
  predicate Consistent(s: Stats)
  {
    s.free + s.premium <= s.total
  }

  /** Free plus premium is at most the number of leads, with equality exactly when
      every lead carries a plan. */
  lemma {:induction false} PlanCountsBounded(leads: seq<Lead>)
    ensures |PlanFilter(leads, Free)| + |PlanFilter(leads, Premium)| <= |leads|
    ensures |PlanFilter(leads, Free)| + |PlanFilter(leads, Premium)| == |leads| <==>
              forall i :: 0 <= i < |leads| ==> leads[i].selectedPlan.Some?
  {
    if leads != [] {
      var tail := leads[1..];
      PlanCountsBounded(tail);
      var f := |PlanFilter(tail, Free)| + |PlanFilter(tail, Premium)|;
      var here := if leads[0].selectedPlan.Some? then 1 else 0;
      match leads[0].selectedPlan {
        case None =>
        case Some(Free) =>
        case Some(Premium) =>
      }
      assert |PlanFilter(leads, Free)| + |PlanFilter(leads, Premium)| == f + here;
    }
  }

  /** The body of `fetchStats` once the list is parsed: total, free and premium. */
  function ComputeStats(leads: seq<Lead>): (s: Stats)
    ensures s.total == |leads|
    ensures s.free == |PlanFilter(leads, Free)| && s.premium == |PlanFilter(leads, Premium)|
    ensures Consistent(s)
  {
    PlanCountsBounded(leads);
    Stats(|leads|, |PlanFilter(leads, Free)|, |PlanFilter(leads, Premium)|)
  }

  /** Filtering distributes over appending one record. */
  lemma {:induction false} PlanFilterAppend(leads: seq<Lead>, x: Lead, p: Plan)
    ensures PlanFilter(leads + [x], p) ==
              PlanFilter(leads, p) + (if x.selectedPlan == Some(p) then [x] else [])
  {
    if leads != [] {
      var head := if leads[0].selectedPlan == Some(p) then [leads[0]] else [];
      assert (leads + [x])[0] == leads[0] && (leads + [x])[1..] == leads[1..] + [x];
      assert PlanFilter(leads + [x], p) == head + PlanFilter(leads[1..] + [x], p);
      PlanFilterAppend(leads[1..], x, p);
      assert PlanFilter(leads, p) == head + PlanFilter(leads[1..], p);
    }
  }

  /** Appending one lead raises the total by one, raises the count of that lead's
      plan by one, leaves the other count alone, and so raises free plus premium by
      at most one. */
  lemma StatsAfterAppend(leads: seq<Lead>, x: Lead)
    ensures ComputeStats(leads + [x]).total == ComputeStats(leads).total + 1
    ensures ComputeStats(leads + [x]).free ==
              ComputeStats(leads).free + (if x.selectedPlan == Some(Free) then 1 else 0)
    ensures ComputeStats(leads + [x]).premium ==
              ComputeStats(leads).premium + (if x.selectedPlan == Some(Premium) then 1 else 0)
    ensures ComputeStats(leads).free + ComputeStats(leads).premium
              <= ComputeStats(leads + [x]).free + ComputeStats(leads + [x]).premium
              <= ComputeStats(leads).free + ComputeStats(leads).premium + 1
  {
    PlanFilterAppend(leads, x, Free);
    PlanFilterAppend(leads, x, Premium);
  }

  /** What the premium-rate card shows: "0" when there are no leads, otherwise the
      exact share premium / total (the percentage and its one-decimal rounding are
      floating point and not modelled). */
  datatype PremiumRate = NoSignups | Share(premium: nat, total: nat)

  /** `conversionRate`: the zero-total guard. A share always has a positive
      denominator, and for consistent stats it lies between 0 and 1. */
  function Rate(s: Stats): (r: PremiumRate)
    ensures r.NoSignups? <==> s.total == 0
    ensures r.Share? ==> r.total > 0 && r.premium == s.premium && r.total == s.total
    ensures r.Share? && Consistent(s) ==> r.premium <= r.total
  {
    if s.total > 0 then Share(s.premium, s.total) else NoSignups
  }

  /** The dashboard's React state. */
  class AdminDashboard {
    var stats: Stats
    var isLoading: bool

    predicate Valid()
      reads this
    {
      Consistent(stats)
    }

    /** Counts start at zero and nothing is loading. */
    constructor ()
      ensures stats == Stats(0, 0, 0) && !isLoading && Valid()
    {
      stats := Stats(0, 0, 0);
      isLoading := false;
    }

    /** `fetchStats`. Reads the stored list without changing it. When it parses, the
        counts are recomputed from it, so two fetches over the same list agree; when
        it does not, the previous counts stay. Either way loading ends. */
    method FetchStats(store: LeadStore)
      modifies this
      ensures old(Valid()) ==> Valid()
      ensures store.stored.Parsed? ==> stats == ComputeStats(store.stored.leads)
      ensures store.stored.Unparseable? ==> stats == old(stats)
      ensures !isLoading
    {
      isLoading := true;
      match store.stored {
        case Parsed(leads) =>
          stats := ComputeStats(leads);
        case Unparseable =>
      }
      isLoading := false;
    }
  }
}
