/**
 * The job-intake draft, the job and customer records written to the store,
 * the required-field check and the construction of the job record.
 */
module JobForm {
  import opened Wrappers
  import Text
  import Sequences

  /** The scalar inputs of the form, by their `name` attribute. */
  datatype Field =
    | JobId | JDate | Loc | CustomerName | Phone | City | Poc
    | Brand | Model | SerialNo | Description | CallStatus

  /** The in-progress job: one string per scalar field plus the engineer slots. */
  datatype FormData = FormData(
    jobid: string,
    loc: string,
    customerName: string,
    phone: string,
    city: string,
    poc: string,
    brand: string,
    model: string,
    serialNo: string,
    description: string,
    engineers: seq<string>,
    callStatus: string,
    jdate: string)
  {
    /** The value of scalar field `f`. */
    function Get(f: Field): string {
      match f
      case JobId => jobid
      case JDate => jdate
      case Loc => loc
      case CustomerName => customerName
      case Phone => phone
      case City => city
      case Poc => poc
      case Brand => brand
      case Model => model
      case SerialNo => serialNo
      case Description => description
      case CallStatus => callStatus
    }

    /** The draft with field `f` set to `v`: only that field changes. */
    function With(f: Field, v: string): (r: FormData)
      ensures r.Get(f) == v
      ensures forall g :: g != f ==> r.Get(g) == Get(g)
      ensures r.engineers == engineers
    {
      match f
      case JobId => this.(jobid := v)
      case JDate => this.(jdate := v)
      case Loc => this.(loc := v)
      case CustomerName => this.(customerName := v)
      case Phone => this.(phone := v)
      case City => this.(city := v)
      case Poc => this.(poc := v)
      case Brand => this.(brand := v)
      case Model => this.(model := v)
      case SerialNo => this.(serialNo := v)
      case Description => this.(description := v)
      case CallStatus => this.(callStatus := v)
    }

    /** A copy of the engineer list with slot `i` replaced: only that slot changes. */
    function WithEngineer(i: nat, v: string): (r: FormData)
      requires i < |engineers|
      ensures |r.engineers| == |engineers| && r.engineers[i] == v
      ensures forall k :: 0 <= k < |engineers| && k != i ==> r.engineers[k] == engineers[k]
      ensures forall f :: r.Get(f) == Get(f)
    {
      this.(engineers := engineers[i := v])
    }
  }

  /** The most engineers a job can be assigned. */
  const MaxEngineers := 3

  /** The empty draft the page starts with and returns to after a successful submission. */
  const InitialDraft := FormData("", "", "", "", "", "", "", "", "", "", [""], "", "")

  lemma InitialDraftIsEmpty()
    ensures forall f :: InitialDraft.Get(f) == ""
    ensures InitialDraft.engineers == [""]
  {
  }

  // ---------------------------------------------------------------------
  // Required fields

  datatype Requirement = Requirement(key: Field, title: string)

  /** The required fields, in the order they are checked and with the label reported. */
  const RequiredFields: seq<Requirement> := [
    Requirement(JobId, "Job ID"),
    Requirement(JDate, "Date"),
    Requirement(Loc, "Location of Service"),
    Requirement(CustomerName, "Customer Name"),
    Requirement(Phone, "Phone"),
    Requirement(City, "City"),
    Requirement(Poc, "POC"),
    Requirement(Brand, "Brand"),
    Requirement(Model, "Model")
  ]

  predicate Missing(d: FormData, f: Field) {
    Text.IsBlank(d.Get(f))
  }

  /** Every field of `required` holds something other than whitespace. */
  predicate AllPresent(d: FormData, required: seq<Requirement>) {
    forall k :: 0 <= k < |required| ==> !Missing(d, required[k].key)
  }

  /** Field number `k` of `required` is missing and every field checked before it is present. */
  predicate FirstMissingIn(d: FormData, required: seq<Requirement>, k: int) {
    && 0 <= k < |required|
    && Missing(d, required[k].key)
    && forall j :: 0 <= j < k ==> !Missing(d, required[j].key)
  }

  /** The draft passes the required-field check. */
  predicate Complete(d: FormData) {
    AllPresent(d, RequiredFields)
  }

  /** Required field number `k` is the one the check reports. */
  predicate IsFirstMissing(d: FormData, k: int) {
    FirstMissingIn(d, RequiredFields, k)
  }

  /**
   * The validation loop of the submit handler: walks the required fields in
   * order and reports the label of the first blank one, or nothing.
   */
  method CheckRequiredFields(d: FormData, required: seq<Requirement>) returns (missing: Option<string>)
    ensures missing == None <==> AllPresent(d, required)
    ensures missing.Some? ==> exists k :: FirstMissingIn(d, required, k) && missing.value == required[k].title
  {
    var i := 0;
    while i < |required|
      invariant 0 <= i <= |required|
      invariant forall j :: 0 <= j < i ==> !Missing(d, required[j].key)
    {
      var field := required[i];
      if Missing(d, field.key) {
        assert FirstMissingIn(d, required, i);
        return Some(field.title);
      }
      i := i + 1;
    }
    return None;
  }

  /** At most one required field is the first missing one, so the report is unambiguous. */
  lemma FirstMissingUnique(d: FormData, i: int, j: int)
    requires IsFirstMissing(d, i) && IsFirstMissing(d, j)
    ensures i == j
  {
  }

  /** A draft is rejected exactly when some required field is empty or whitespace only. */
  lemma {:induction false} RejectedIffWhitespaceOnly(d: FormData)
    ensures !Complete(d) <==> exists k :: 0 <= k < |RequiredFields| && Text.AllSpace(d.Get(RequiredFields[k].key))
  {
    forall k | 0 <= k < |RequiredFields|
      ensures Missing(d, RequiredFields[k].key) <==> Text.AllSpace(d.Get(RequiredFields[k].key))
    {
      Text.BlankIffAllSpace(d.Get(RequiredFields[k].key));
    }
  }

  /** The empty draft is rejected, and the field reported is the job id. */
  lemma InitialDraftReportsJobId()
    ensures IsFirstMissing(InitialDraft, 0) && RequiredFields[0].title == "Job ID"
  {
  }

  // ---------------------------------------------------------------------
  // Records written to the store

  /** `serverTimestamp()`: a placeholder the store replaces with its own clock. */
  datatype Timestamp = ServerTimestamp

  const NotInspected := "Not Inspected"

  /** A document of the `jobs` collection: the draft's fields, a status and a creation time. */
  datatype Job = Job(data: FormData, status: string, createdAt: Timestamp)

  /** A document of the `customers` collection. */
  datatype Customer = Customer(name: string, createdAt: Timestamp)

  /** JavaScript truthiness of a string: only the empty string is falsy. */
  predicate IsAssigned(e: string) {
    e != ""
  }

  /**
   * The job document built from a draft: every draft field copied, the empty
   * engineer slots dropped, the status "Not Inspected" and a server timestamp.
   */
  function BuildJob(d: FormData): (j: Job)
    ensures forall f :: j.data.Get(f) == d.Get(f)
    ensures |j.data.engineers| <= |d.engineers|
    ensures forall e :: e in j.data.engineers <==> e in d.engineers && e != ""
    ensures j.status == NotInspected && j.createdAt == ServerTimestamp
  {
    Sequences.FilterMembers(d.engineers, IsAssigned);
    Job(d.(engineers := Sequences.Filter(d.engineers, IsAssigned)), NotInspected, ServerTimestamp)
  }

  /** The assigned engineers keep the order of the slots they were chosen in. */
  lemma BuildJobKeepsSlotOrder(d: FormData, before: seq<string>, after: seq<string>)
    requires d.engineers == before + after
    ensures BuildJob(d).data.engineers
         == BuildJob(d.(engineers := before)).data.engineers + BuildJob(d.(engineers := after)).data.engineers
  {
    Sequences.FilterAppend(before, after, IsAssigned);
  }

  /** The customer document created for a new name: the name and a server timestamp. */
  function NewCustomer(name: string): Customer {
    Customer(name, ServerTimestamp)
  }

  /** Creates customer `c` under its name unless an entry with that name already exists. */
  function AddCustomerIfAbsent(customers: map<string, Customer>, c: Customer): (r: map<string, Customer>)
    ensures r.Keys == customers.Keys + {c.name}
    ensures forall k :: k in customers ==> r[k] == customers[k]
    ensures c.name !in customers ==> r[c.name] == c
  {
    if c.name in customers then customers else customers[c.name := c]
  }

  /** A second submission for the same customer name leaves the entry created by the first. */
  lemma FirstCustomerWins(customers: map<string, Customer>, first: Customer, second: Customer)
    requires first.name == second.name
    ensures AddCustomerIfAbsent(AddCustomerIfAbsent(customers, first), second)
         == AddCustomerIfAbsent(customers, first)
  {
  }
}
