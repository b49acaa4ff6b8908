/**
 * The create-job page: the draft being edited, the suggestion and in-flight
 * flags, and the `jobs` and `customers` collections of the document store,
 * held as in-memory maps keyed by document id.
 */
module CreateJobPage {
  import opened Wrappers
  import opened JobForm
  import Autocomplete
  import Sequences

  /**
   * Where a submission's store access fails, if anywhere. `CustomerRefRejected`
   * is the store client refusing to form the customer document reference, as it
   * does for a name such as "Acme/Pune" that reads as a path of several segments;
   * `JobWriteFails` also covers a job id the client refuses in the same way.
   */
  datatype FailurePoint =
    | NoFailure | CustomerRefRejected | JobWriteFails | CustomerReadFails | CustomerWriteFails

  /**
   * What the user is told: nothing, a missing field, the created job id or a
   * generic failure; `Aborted` is an exception that escapes the handler unreported.
   */
  datatype Outcome = Ignored | Invalid(field: string) | Created(jobid: string) | Failed | Aborted

  /** The job document reaches the store. */
  predicate JobWritten(failure: FailurePoint) {
    failure != CustomerRefRejected && failure != JobWriteFails
  }

  /** The job and customer documents prepared before the first store access. */
  datatype Pending = Pending(job: Job, customer: Customer)

  /** How the synchronous part of a submission ends: stopped with an outcome, or with writes to do. */
  datatype Start = Stop(outcome: Outcome) | InFlight(pending: Pending)

  /**
   * The submission completes: no failure is injected, or the injected failure
   * hits a customer write that is skipped because the customer already exists.
   */
  predicate WritesSucceed(failure: FailurePoint, name: string, customers: map<string, Customer>) {
    failure == NoFailure || (failure == CustomerWriteFails && name in customers)
  }

  class CreateJob {
    var formData: FormData
    var submitting: bool
    var showSuggestions: bool
    var jobs: map<string, Job>
    var customers: map<string, Customer>
    /** The customer names loaded when the page was opened. */
    const customerOptions: seq<string>

    /** There is always a first engineer slot and never more than three. */
    predicate Valid()
      reads this
    {
      1 <= |formData.engineers| <= MaxEngineers
    }

    /** Opens the page on a store with the given collections. */
    constructor (jobs0: map<string, Job>, customers0: map<string, Customer>, options: seq<string>)
      ensures Valid()
      ensures formData == InitialDraft && !submitting && !showSuggestions
      ensures jobs == jobs0 && customers == customers0 && customerOptions == options
    {
      formData := InitialDraft;
      submitting := false;
      showSuggestions := false;
      jobs := jobs0;
      customers := customers0;
      customerOptions := options;
    }

    // -------------------------------------------------------------------
    // Edits

    /** Typing into a scalar input replaces that field and nothing else. */
    method HandleChange(name: Field, value: string)
      requires Valid()
      modifies this`formData
      ensures Valid()
      ensures formData == old(formData).With(name, value)
    {
      formData := formData.With(name, value);
    }

    /** Choosing an engineer for slot `index` replaces that slot and nothing else. */
    method HandleEngineerChange(index: nat, value: string)
      requires Valid() && index < |formData.engineers|
      modifies this`formData
      ensures Valid()
      ensures formData == old(formData).WithEngineer(index, value)
    {
      formData := formData.WithEngineer(index, value);
    }

    /** Appends an empty engineer slot unless there are already three. */
    method AddEngineerField()
      requires Valid()
      modifies this`formData
      ensures Valid()
      ensures old(|formData.engineers|) < MaxEngineers ==> formData == old(formData).(engineers := old(formData.engineers) + [""])
      ensures old(|formData.engineers|) >= MaxEngineers ==> formData == old(formData)
    {
      if |formData.engineers| < MaxEngineers {
        formData := formData.(engineers := formData.engineers + [""]);
      }
    }

    /** Removes engineer slot `index`; the page offers this for every slot but the first. */
    method RemoveEngineerField(index: nat)
      requires Valid() && 0 < index
      modifies this`formData
      ensures Valid()
      ensures formData == old(formData).(engineers := Sequences.RemoveAt(old(formData.engineers), index))
    {
      formData := formData.(engineers := Sequences.RemoveAt(formData.engineers, index));
    }

    // -------------------------------------------------------------------
    // Customer-name suggestions

    /** Typing into the customer-name input edits it and opens the suggestion list. */
    method HandleCustomerNameInput(value: string)
      requires Valid()
      modifies this`formData, this`showSuggestions
      ensures Valid()
      ensures formData == old(formData).With(CustomerName, value) && showSuggestions
    {
      HandleChange(CustomerName, value);
      showSuggestions := true;
    }

    method HandleCustomerNameFocus()
      modifies this`showSuggestions
      ensures showSuggestions
    {
      showSuggestions := true;
    }

    /** Leaving the input hides the list (the page waits a moment first; that delay is not modelled). */
    method HandleCustomerNameBlur()
      modifies this`showSuggestions
      ensures !showSuggestions
    {
      showSuggestions := false;
    }

    /** Picking a suggestion fills in the customer name and hides the list. */
    method SelectSuggestion(name: string)
      requires Valid()
      modifies this`formData, this`showSuggestions
      ensures Valid()
      ensures formData == old(formData).With(CustomerName, name) && !showSuggestions
      ensures DisplayedSuggestions() == []
    {
      formData := formData.With(CustomerName, name);
      showSuggestions := false;
    }

    /** The names listed under the customer-name input. */
    function DisplayedSuggestions(): (r: seq<string>)
      reads this
      ensures r != [] ==> showSuggestions && formData.customerName != ""
      ensures forall n :: n in r ==> n in customerOptions && Autocomplete.Matches(n, formData.customerName)
      ensures Autocomplete.SuggestionsShown(showSuggestions, formData.customerName) ==>
                forall n :: n in customerOptions && Autocomplete.Matches(n, formData.customerName) ==> n in r
    {
      if Autocomplete.SuggestionsShown(showSuggestions, formData.customerName)
      then Autocomplete.Suggestions(customerOptions, formData.customerName)
      else []
    }

    // -------------------------------------------------------------------
    // Submission

    /**
     * The part of a submission before the first store access: the in-flight
     * guard, the required-field check, raising the in-flight flag and
     * preparing the job and customer documents from the current draft.
     */
    method StartSubmit() returns (s: Start)
      modifies this`submitting
      ensures s.InFlight? <==> !old(submitting) && Complete(formData)
      ensures old(submitting) ==> s == Stop(Ignored) && submitting
      ensures !old(submitting) && !Complete(formData) ==>
                && !submitting
                && exists k :: IsFirstMissing(formData, k) && s == Stop(Invalid(RequiredFields[k].title))
      ensures !old(submitting) && Complete(formData) ==>
                submitting && s == InFlight(Pending(BuildJob(formData), NewCustomer(formData.customerName)))
    {
      if submitting {
        return Stop(Ignored);
      }
      var missing := CheckRequiredFields(formData, RequiredFields);
      if missing.Some? {
        return Stop(Invalid(missing.value));
      }
      submitting := true;
      var customer := NewCustomer(formData.customerName);
      var job := BuildJob(formData);
      return InFlight(Pending(job, customer));
    }

    /**
     * The store accesses of a submission, in order: form the customer reference,
     * write the job under its id (replacing any job with that id), read the
     * customer, create it if absent; then clear the draft on success or keep it
     * on failure, and in every case lower the in-flight flag. A job written
     * before a later failure stays. The customer reference is formed inside the
     * guarded region here, so a rejected reference is reported and releases the
     * flag; see HandleSubmitAsWritten for the page as it stands.
     */
    method FinishSubmit(p: Pending, failure: FailurePoint) returns (outcome: Outcome)
      requires Valid() && submitting
      modifies this`formData, this`submitting, this`jobs, this`customers
      ensures Valid() && !submitting
      ensures !JobWritten(failure) ==> jobs == old(jobs)
      ensures JobWritten(failure) ==> jobs == old(jobs)[p.job.data.jobid := p.job]
      ensures WritesSucceed(failure, p.customer.name, old(customers)) ==>
                && outcome == Created(p.job.data.jobid)
                && customers == AddCustomerIfAbsent(old(customers), p.customer)
                && formData == InitialDraft
      ensures !WritesSucceed(failure, p.customer.name, old(customers)) ==>
                outcome == Failed && customers == old(customers) && formData == old(formData)
    {
      if failure == CustomerRefRejected || failure == JobWriteFails {
        submitting := false;
        return Failed;
      }
      jobs := jobs[p.job.data.jobid := p.job];
      if failure == CustomerReadFails {
        submitting := false;
        return Failed;
      }
      if p.customer.name !in customers {
        if failure == CustomerWriteFails {
          submitting := false;
          return Failed;
        }
        customers := customers[p.customer.name := p.customer];
      }
      outcome := Created(p.job.data.jobid);
      formData := InitialDraft;
      submitting := false;
    }

    /** Submitting the form: the synchronous part, then the store accesses if it got that far. */
    method HandleSubmit(failure: FailurePoint) returns (outcome: Outcome)
      requires Valid()
      modifies this`formData, this`submitting, this`jobs, this`customers
      ensures Valid()
      ensures old(submitting) ==>
                && outcome == Ignored && submitting
                && formData == old(formData) && jobs == old(jobs) && customers == old(customers)
      ensures !old(submitting) ==> !submitting
      ensures !old(submitting) && !Complete(old(formData)) ==>
                && (exists k :: IsFirstMissing(old(formData), k) && outcome == Invalid(RequiredFields[k].title))
                && formData == old(formData) && jobs == old(jobs) && customers == old(customers)
      ensures !old(submitting) && Complete(old(formData)) && !JobWritten(failure) ==>
                jobs == old(jobs)
      ensures !old(submitting) && Complete(old(formData)) && JobWritten(failure) ==>
                jobs == old(jobs)[old(formData.jobid) := BuildJob(old(formData))]
      ensures !old(submitting) && Complete(old(formData)) && WritesSucceed(failure, old(formData.customerName), old(customers)) ==>
                && outcome == Created(old(formData.jobid))
                && customers == AddCustomerIfAbsent(old(customers), NewCustomer(old(formData.customerName)))
                && formData == InitialDraft
      ensures !old(submitting) && Complete(old(formData)) && !WritesSucceed(failure, old(formData.customerName), old(customers)) ==>
                outcome == Failed && customers == old(customers) && formData == old(formData)
    {
      ghost var draft := formData;
      var s := StartSubmit();
      if s.InFlight? {
        assert !old(submitting) && Complete(draft);
        var p := s.pending;
        assert p.job == BuildJob(draft) && p.job.data.jobid == draft.jobid;
        assert p.customer == NewCustomer(draft.customerName) && p.customer.name == draft.customerName;
        outcome := FinishSubmit(p, failure);
      } else if s.outcome.Invalid? {
        ghost var k :| IsFirstMissing(draft, k) && s == Stop(Invalid(RequiredFields[k].title));
        outcome := s.outcome;
        assert outcome == Invalid(RequiredFields[k].title);
      } else {
        outcome := s.outcome;
      }
    }

    /**
     * The submit handler as the page has it: the customer reference is formed
     * after the in-flight flag is raised but outside the guarded region, so when
     * the store client rejects it the exception escapes, nothing is reported and
     * the flag is never lowered.
     */
    method HandleSubmitAsWritten(failure: FailurePoint) returns (outcome: Outcome)
      requires Valid()
      modifies this`formData, this`submitting, this`jobs, this`customers
      ensures Valid()
      ensures old(submitting) ==>
                && outcome == Ignored && submitting
                && formData == old(formData) && jobs == old(jobs) && customers == old(customers)
      ensures !old(submitting) && !Complete(old(formData)) ==>
                && !submitting
                && (exists k :: IsFirstMissing(old(formData), k) && outcome == Invalid(RequiredFields[k].title))
                && formData == old(formData) && jobs == old(jobs) && customers == old(customers)
      ensures !old(submitting) && Complete(old(formData)) && failure == CustomerRefRejected ==>
                && outcome == Aborted && submitting
                && formData == old(formData) && jobs == old(jobs) && customers == old(customers)
      ensures !old(submitting) && failure != CustomerRefRejected ==> !submitting
      ensures !old(submitting) && Complete(old(formData)) && failure == JobWriteFails ==>
                jobs == old(jobs)
      ensures !old(submitting) && Complete(old(formData)) && JobWritten(failure) ==>
                jobs == old(jobs)[old(formData.jobid) := BuildJob(old(formData))]
      ensures !old(submitting) && Complete(old(formData)) && WritesSucceed(failure, old(formData.customerName), old(customers)) ==>
                && outcome == Created(old(formData.jobid))
                && customers == AddCustomerIfAbsent(old(customers), NewCustomer(old(formData.customerName)))
                && formData == InitialDraft
      ensures !old(submitting) && Complete(old(formData)) && failure != CustomerRefRejected
              && !WritesSucceed(failure, old(formData.customerName), old(customers)) ==>
                outcome == Failed && customers == old(customers) && formData == old(formData)
    {
      ghost var draft := formData;
      var s := StartSubmit();
      if s.Stop? {
        if s.outcome.Invalid? {
          ghost var k :| IsFirstMissing(draft, k) && s == Stop(Invalid(RequiredFields[k].title));
          assert s.outcome == Invalid(RequiredFields[k].title);
        }
        return s.outcome;
      }
      assert !old(submitting) && Complete(draft);
      if failure == CustomerRefRejected {
        return Aborted;
      }
      var p := s.pending;
      assert p.job == BuildJob(draft) && p.job.data.jobid == draft.jobid;
      assert p.customer == NewCustomer(draft.customerName) && p.customer.name == draft.customerName;
      outcome := FinishSubmit(p, failure);
    }
  }
}
