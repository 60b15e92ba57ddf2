/**
 * The signup modal: its form state and the submit and close handlers.
 */
module Signup {
  import opened Text
  import opened Leads

  /** How a submission ends. `StorageError` is the catch branch: the stored list
      could not be parsed, or writing it back failed. */
  datatype Outcome = MissingFields | Duplicate | StorageError | Ok

  /** The record the form appends: the address trimmed and lower-cased, the other
      fields as given. */
  function NewLead(email: string, university: string, plan: Option<Plan>, createdAt: string): (lead: Lead)
    ensures lead.email == Normalize(email) && Normalize(lead.email) == lead.email
    ensures lead.university == university && lead.selectedPlan == plan && lead.createdAt == createdAt
  {
    NormalizeIdempotent(email);
    Lead(Normalize(email), university, plan, createdAt)
  }

  /** Which way `handleSubmit` goes, given the form fields, what the stored entry
      parses to and whether writing it back succeeds. The required-field test looks
      at the address as typed, before trimming. */
  function Decide(email: string, university: string, stored: Stored, writeOk: bool): (o: Outcome)
    ensures o == MissingFields <==> email == [] || university == []
    ensures o == Duplicate <==>
              email != [] && university != [] && stored.Parsed? &&
              exists i :: 0 <= i < |stored.leads| && stored.leads[i].email == Normalize(email)
    ensures o == Ok <==>
              email != [] && university != [] && stored.Parsed? && writeOk &&
              forall i :: 0 <= i < |stored.leads| ==> stored.leads[i].email != Normalize(email)
  {
    if email == [] || university == [] then MissingFields
    else if stored.Unparseable? then StorageError
    else if IsRegistered(stored.leads, Normalize(email)) then Duplicate
    else if !writeOk then StorageError
    else Ok
  }

  /** An accepted submission keeps the stored list's invariant. */
  lemma AcceptedKeepsValid(email: string, university: string, plan: Option<Plan>, createdAt: string,
                           leads: seq<Lead>, writeOk: bool)
    requires ValidLeads(leads)
    requires Decide(email, university, Parsed(leads), writeOk) == Ok
    ensures ValidLeads(leads + [NewLead(email, university, plan, createdAt)])
  {
    NormalizeIdempotent(email);
    AppendKeepsValid(leads, NewLead(email, university, plan, createdAt));
  }

  /** Once an address is accepted, any later submission of it that differs only in
      ASCII case or surrounding whitespace is turned away as a duplicate. */
  lemma ResubmissionRejected(a: string, b: string, university: string, university': string,
                             plan: Option<Plan>, createdAt: string, leads: seq<Lead>,
                             writeOk: bool, writeOk': bool)
    requires Decide(a, university, Parsed(leads), writeOk) == Ok
    requires b != [] && university' != []
    requires Trim(Lower(a)) == Trim(Lower(b))
    ensures Decide(b, university', Parsed(leads + [NewLead(a, university, plan, createdAt)]), writeOk') == Duplicate
  {
    NormalizeIgnoresCaseAndPadding(a, b);
    var s := leads + [NewLead(a, university, plan, createdAt)];
    assert s[|leads|].email == Normalize(b);
  }

  /** In particular, once an address is accepted, submitting it again with spaces,
      tabs or line breaks around it is turned away as a duplicate. */
  lemma PaddedResubmissionRejected(a: string, p: string, q: string, university: string, university': string,
                                   plan: Option<Plan>, createdAt: string, leads: seq<Lead>,
                                   writeOk: bool, writeOk': bool)
    requires Decide(a, university, Parsed(leads), writeOk) == Ok
    requires AllWhitespace(p) && AllWhitespace(q) && university' != []
    ensures Decide(p + a + q, university', Parsed(leads + [NewLead(a, university, plan, createdAt)]), writeOk') == Duplicate
  {
    NormalizeIgnoresPadding(p, a, q);
    var s := leads + [NewLead(a, university, plan, createdAt)];
    assert s[|leads|].email == Normalize(p + a + q);
  }

  /** The required-field test sees the untrimmed address, so an address of
      whitespace only passes it and is stored as the empty string. */
  lemma BlankEmailStoredEmpty(email: string, university: string, plan: Option<Plan>, createdAt: string,
                              leads: seq<Lead>)
    requires email != [] && AllWhitespace(email) && university != []
    requires !IsRegistered(leads, [])
    ensures Decide(email, university, Parsed(leads), true) == Ok
    ensures NewLead(email, university, plan, createdAt).email == []
  {
    TrimAllWhitespace(email);
  }

  /** The modal's React state. The selected plan is a prop and reaches the handler
      as a parameter. */
  class SignupModal {
    var email: string
    var university: string
    var isSubmitting: bool
    var isSubmitted: bool

    /** Between handler calls no submission is in flight: `isSubmitting` is only ever
        true inside `HandleSubmit`. */
    predicate Valid()
      reads this
    {
      !isSubmitting
    }

    constructor ()
      ensures email == [] && university == [] && !isSubmitting && !isSubmitted
      ensures Valid()
    {
      email, university := [], [];
      isSubmitting, isSubmitted := false, false;
    }

    /** The e-mail input's change handler. */
    method EnterEmail(value: string)
      modifies this`email
      ensures email == value
      ensures old(Valid()) ==> Valid()
    {
      email := value;
    }

    /** The university select's change handler. */
    method ChooseUniversity(value: string)
      modifies this`university
      ensures university == value
      ensures old(Valid()) ==> Valid()
    {
      university := value;
    }

    /** `handleSubmit`. On acceptance the store holds the old list with one record
        appended; on every other outcome the store is untouched. `isSubmitted` is set
        only on acceptance; `isSubmitting` ends false on every path that got past the
        field check, and the field check itself leaves it alone. */
    method HandleSubmit(store: LeadStore, selectedPlan: Option<Plan>, createdAt: string, writeOk: bool)
      returns (outcome: Outcome)
      modifies this`isSubmitting, this`isSubmitted, store
      ensures outcome == Decide(email, university, old(store.stored), writeOk)
      ensures outcome == Ok ==>
                store.stored == Parsed(old(store.stored).leads + [NewLead(email, university, selectedPlan, createdAt)])
      ensures outcome != Ok ==> store.stored == old(store.stored)
      ensures old(store.Valid()) ==> store.Valid()
      ensures isSubmitted == (old(isSubmitted) || outcome == Ok)
      ensures outcome == MissingFields ==> isSubmitting == old(isSubmitting)
      ensures outcome != MissingFields ==> !isSubmitting
      ensures old(Valid()) ==> Valid()
    {
      if email == [] || university == [] {
        return MissingFields;
      }
      isSubmitting := true;
      match store.stored {
        case Unparseable =>
          outcome := StorageError;
        case Parsed(leads) =>
          var normalized := Normalize(email);
          if IsRegistered(leads, normalized) {
            isSubmitting := false;
            return Duplicate;
          }
          var updated := leads + [Lead(normalized, university, selectedPlan, createdAt)];
          if writeOk {
            if store.Valid() {
              AcceptedKeepsValid(email, university, selectedPlan, createdAt, leads, writeOk);
            }
            store.stored := Parsed(updated);
            isSubmitted := true;
            outcome := Ok;
          } else {
            outcome := StorageError;
          }
      }
      isSubmitting := false;
    }

    /** `handleClose`: clears both fields and the success flag. Closing the dialog
        itself belongs to the parent. */
    method HandleClose()
      modifies this`email, this`university, this`isSubmitted
      ensures email == [] && university == [] && !isSubmitted
      ensures old(Valid()) ==> Valid()
    {
      email := [];
      university := [];
      isSubmitted := false;
    }
  }
}
