/**
 * The lead list both components share. The browser keeps it as JSON text under
 * one storage key; here the text is abstracted to what parsing it yields: a list
 * of lead records, or a failure.
 */
module Leads {
  import opened Text

  datatype Option<+T> = None | Some(value: T)

  datatype Plan = Free | Premium

  /** One signup. `selectedPlan` is `None` when the form was opened without a plan
      (the modal's prop admits `null`). `createdAt` is an opaque ISO timestamp. */
  datatype Lead = Lead(email: string, university: string, selectedPlan: Option<Plan>, createdAt: string)

  /** What parsing the stored text gives: a missing entry reads as the empty list;
      text that is not a JSON list of records is `Unparseable`. */
  datatype Stored = Parsed(leads: seq<Lead>) | Unparseable

  /** `leads.some(lead => lead.email === email)`: the address is stored already. */
  function IsRegistered(leads: seq<Lead>, email: string): (b: bool)
    ensures b <==> exists i :: 0 <= i < |leads| && leads[i].email == email
  {
    if leads == [] then false
    else leads[0].email == email || IsRegistered(leads[1..], email)
  }

  predicate EmailsNormalized(leads: seq<Lead>)
  {
    forall i :: 0 <= i < |leads| ==> Normalize(leads[i].email) == leads[i].email
  }

  predicate EmailsDistinct(leads: seq<Lead>)
  {
    forall i, j :: 0 <= i < j < |leads| ==> leads[i].email != leads[j].email
  }

  /** The invariant intake keeps: every stored address is in normal form and no
      address is stored twice. */
  predicate ValidLeads(leads: seq<Lead>)
  {
    EmailsNormalized(leads) && EmailsDistinct(leads)
  }

  lemma AppendKeepsNormalized(leads: seq<Lead>, lead: Lead)
    requires EmailsNormalized(leads)
    requires Normalize(lead.email) == lead.email
    ensures EmailsNormalized(leads + [lead])
  {
    var s := leads + [lead];
    forall i | 0 <= i < |s| ensures Normalize(s[i].email) == s[i].email {
      if i < |leads| {
        assert s[i] == leads[i];
      }
    }
  }

  lemma AppendKeepsDistinct(leads: seq<Lead>, lead: Lead)
    requires EmailsDistinct(leads)
    requires forall i :: 0 <= i < |leads| ==> leads[i].email != lead.email
    ensures EmailsDistinct(leads + [lead])
  {
    var s := leads + [lead];
    forall i, j | 0 <= i < j < |s| ensures s[i].email != s[j].email {
      assert s[i] == leads[i];
      if j < |leads| {
        assert s[j] == leads[j];
      }
    }
  }

  /** Appending a record whose address is normalised and not yet stored keeps the
      invariant. */
  lemma AppendKeepsValid(leads: seq<Lead>, lead: Lead)
    requires ValidLeads(leads)
    requires Normalize(lead.email) == lead.email
    requires !IsRegistered(leads, lead.email)
    ensures ValidLeads(leads + [lead])
  {
    AppendKeepsNormalized(leads, lead);
    AppendKeepsDistinct(leads, lead);
  }

  /** The browser storage entry that holds the lead list. */
  class LeadStore {
    var stored: Stored

    /** The invariant holds vacuously while the entry cannot be parsed. */
    predicate Valid()
      reads this
    {
      stored.Parsed? ==> ValidLeads(stored.leads)
    }

    /** A fresh browser: the entry is absent and reads as `[]`. */
    constructor ()
      ensures stored == Parsed([]) && Valid()
    {
      stored := Parsed([]);
    }
  }
}
