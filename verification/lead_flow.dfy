/**
 * How the two components meet: only through the stored list. A dashboard sees a lead
 * the form has written when it next runs `fetchStats` over that list: on mounting, on
 * the `storage` event another tab's write raises, or on the "lead added" event the
 * form dispatches when both are mounted in the same window.
 */
module LeadFlow {
  import opened Leads
  import opened Signup
  import opened Dashboard

  /** One submission followed by the dashboard's next refresh. Only an accepted lead
      is written and announced, so on every other outcome the dashboard is left as it
      was. The form's flags change as `HandleSubmit` states. When the
      dashboard was up to date, an accepted lead raises the total by exactly one and
      free plus premium by at most one. */
  method SubmitThenRefresh(modal: SignupModal, store: LeadStore, dashboard: AdminDashboard,
                           selectedPlan: Option<Plan>, createdAt: string, writeOk: bool)
    returns (outcome: Outcome)
    modifies modal`isSubmitting, modal`isSubmitted, store, dashboard
    ensures outcome == Decide(modal.email, modal.university, old(store.stored), writeOk)
    ensures old(store.Valid()) ==> store.Valid()
    ensures old(modal.Valid()) ==> modal.Valid()
    ensures modal.isSubmitted == (old(modal.isSubmitted) || outcome == Ok)
    ensures outcome == MissingFields ==> modal.isSubmitting == old(modal.isSubmitting)
    ensures outcome != MissingFields ==> !modal.isSubmitting
    ensures outcome != Ok ==>
              store.stored == old(store.stored) &&
              dashboard.stats == old(dashboard.stats) && dashboard.isLoading == old(dashboard.isLoading)
    ensures outcome == Ok ==> !dashboard.isLoading
    ensures outcome == Ok ==>
              store.stored == Parsed(old(store.stored).leads + [NewLead(modal.email, modal.university, selectedPlan, createdAt)]) &&
              dashboard.stats == ComputeStats(store.stored.leads)
    ensures outcome == Ok && old(dashboard.stats) == ComputeStats(old(store.stored).leads) ==>
              dashboard.stats.total == old(dashboard.stats).total + 1 &&
              old(dashboard.stats).free + old(dashboard.stats).premium
                <= dashboard.stats.free + dashboard.stats.premium
                <= old(dashboard.stats).free + old(dashboard.stats).premium + 1
  {
    outcome := modal.HandleSubmit(store, selectedPlan, createdAt, writeOk);
    if outcome == Ok {
      dashboard.FetchStats(store);
      StatsAfterAppend(old(store.stored).leads, NewLead(modal.email, modal.university, selectedPlan, createdAt));
    }
  }
}
