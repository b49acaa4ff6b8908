/**
 * Client code of the create-job page: what a caller can conclude from the
 * page's contracts alone about whole sequences of user actions.
 */
module Scenarios {
  import opened JobForm
  import opened CreateJobPage
  import Text

  /** A draft with every required field filled in. */
  function Filled(jobid: string, customer: string, brand: string): FormData {
    InitialDraft.(jobid := jobid, jdate := "2025-06-01", loc := "Customer Location",
                  customerName := customer, phone := "9800000000", city := "Pune",
                  poc := "Ravi", brand := brand, model := "X1")
  }

  /** Types the required fields into an empty form, one input at a time. */
  method FillIn(page: CreateJob, jobid: string, customer: string, brand: string)
    requires page.Valid() && page.formData == InitialDraft
    modifies page`formData
    ensures page.Valid() && page.formData == Filled(jobid, customer, brand)
  {
    page.HandleChange(JobId, jobid);
    page.HandleChange(JDate, "2025-06-01");
    page.HandleChange(Loc, "Customer Location");
    page.HandleChange(CustomerName, customer);
    page.HandleChange(Phone, "9800000000");
    page.HandleChange(City, "Pune");
    page.HandleChange(Poc, "Ravi");
    page.HandleChange(Brand, brand);
    page.HandleChange(Model, "X1");
  }

  /** A draft filled with the given job id and customer passes the required-field check. */
  lemma FilledIsComplete(jobid: string, customer: string, brand: string)
    requires jobid != [] && !Text.IsSpace(jobid[0])
    requires customer != [] && !Text.IsSpace(customer[0])
    requires brand != [] && !Text.IsSpace(brand[0])
    ensures Complete(Filled(jobid, customer, brand))
  {
    var d := Filled(jobid, customer, brand);
    forall k | 0 <= k < |RequiredFields|
      ensures !Missing(d, RequiredFields[k].key)
    {
      var v := d.Get(RequiredFields[k].key);
      assert v != [] && !Text.IsSpace(v[0]);
      Text.BlankIffAllSpace(v);
    }
  }

  /** Submitting "J100" for a new customer "NewCo" creates both documents and clears the form. */
  method NewJobForNewCustomer() {
    var page := new CreateJob(map[], map[], []);
    FillIn(page, "J100", "NewCo", "Bosch");
    FilledIsComplete("J100", "NewCo", "Bosch");
    var outcome := page.HandleSubmit(NoFailure);
    assert outcome == Created("J100");
    assert page.jobs.Keys == {"J100"} && page.jobs["J100"].status == "Not Inspected";
    assert page.jobs["J100"].data.engineers == [];
    assert page.customers == map["NewCo" := NewCustomer("NewCo")];
    assert page.formData == InitialDraft && !page.submitting;
  }

  /** Two jobs for the same customer leave the one customer entry the first created. */
  method SameCustomerTwice() {
    var page := new CreateJob(map[], map[], []);
    FillIn(page, "J1", "NewCo", "Bosch");
    FilledIsComplete("J1", "NewCo", "Bosch");
    var first := page.HandleSubmit(NoFailure);
    FillIn(page, "J2", "NewCo", "Bosch");
    FilledIsComplete("J2", "NewCo", "Bosch");
    var second := page.HandleSubmit(NoFailure);
    assert first == Created("J1") && second == Created("J2");
    assert page.customers == map["NewCo" := NewCustomer("NewCo")];
    assert page.jobs.Keys == {"J1", "J2"};
  }

  /** A second job with the same id replaces the first entirely. */
  method SameJobIdTwice() {
    var page := new CreateJob(map[], map[], []);
    FillIn(page, "J1", "NewCo", "Bosch");
    FilledIsComplete("J1", "NewCo", "Bosch");
    var first := page.HandleSubmit(NoFailure);
    FillIn(page, "J1", "NewCo", "Brother");
    FilledIsComplete("J1", "NewCo", "Brother");
    var second := page.HandleSubmit(NoFailure);
    assert page.jobs.Keys == {"J1"};
    assert page.jobs["J1"] == BuildJob(Filled("J1", "NewCo", "Brother"));
    assert page.jobs["J1"].data.brand == "Brother";
  }

  /** A second submit while the first is still writing does nothing; only one write sequence happens. */
  method DoubleSubmit() {
    var page := new CreateJob(map[], map[], []);
    FillIn(page, "J7", "NewCo", "Bosch");
    FilledIsComplete("J7", "NewCo", "Bosch");
    var started := page.StartSubmit();
    assert started.InFlight? && page.submitting;
    var again := page.HandleSubmit(NoFailure);
    assert again == Ignored && page.jobs == map[] && page.customers == map[];
    var outcome := page.FinishSubmit(started.pending, NoFailure);
    assert outcome == Created("J7") && !page.submitting;
    assert page.jobs.Keys == {"J7"};
  }

  /** When the customer write fails, the job stays written, the draft is kept and the user sees a failure. */
  method CustomerWriteFailsAfterJobWrite() {
    var page := new CreateJob(map[], map[], []);
    FillIn(page, "J9", "NewCo", "Bosch");
    FilledIsComplete("J9", "NewCo", "Bosch");
    var outcome := page.HandleSubmit(CustomerWriteFails);
    assert outcome == Failed;
    assert "J9" in page.jobs && page.customers == map[];
    assert page.formData == Filled("J9", "NewCo", "Bosch") && !page.submitting;
  }

  /** Submitting the empty form reports the job id first and writes nothing. */
  method EmptyFormRejected() {
    var page := new CreateJob(map[], map[], []);
    InitialDraftReportsJobId();
    var outcome := page.HandleSubmit(NoFailure);
    assert outcome == Invalid("Job ID");
    assert page.jobs == map[] && page.formData == InitialDraft;
  }

  /** Engineer slots: a fourth cannot be added and removing one keeps the others in order. */
  method EngineerSlots() {
    var page := new CreateJob(map[], map[], []);
    page.HandleEngineerChange(0, "a@x.in");
    page.AddEngineerField();
    page.HandleEngineerChange(1, "b@x.in");
    page.AddEngineerField();
    page.HandleEngineerChange(2, "c@x.in");
    page.AddEngineerField();
    assert page.formData.engineers == ["a@x.in", "b@x.in", "c@x.in"];
    page.RemoveEngineerField(1);
    assert page.formData.engineers == ["a@x.in", "c@x.in"];
  }

  /**
   * As the page stands, a customer name the store client cannot turn into a
   * document reference leaves the in-flight flag raised, so every later
   * submit is ignored and nothing is ever written.
   */
  method SlashInCustomerNameLocksForm() {
    var page := new CreateJob(map[], map[], []);
    FillIn(page, "J5", "Acme/Pune", "Bosch");
    FilledIsComplete("J5", "Acme/Pune", "Bosch");
    var aborted := page.HandleSubmitAsWritten(CustomerRefRejected);
    assert aborted == Aborted && page.submitting;
    var retry := page.HandleSubmitAsWritten(NoFailure);
    assert retry == Ignored && page.jobs == map[];
  }

  /** With the reference formed inside the guarded region the user sees a failure and can submit again. */
  method SlashInCustomerNameReported() {
    var page := new CreateJob(map[], map[], []);
    FillIn(page, "J5", "Acme/Pune", "Bosch");
    FilledIsComplete("J5", "Acme/Pune", "Bosch");
    var failed := page.HandleSubmit(CustomerRefRejected);
    assert failed == Failed && !page.submitting && page.jobs == map[];
    var again := page.HandleSubmit(NoFailure);
    assert again == Created("J5") && "J5" in page.jobs;
  }
}
