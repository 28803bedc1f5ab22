/** The "Contact Me" drawer: submitting the form records a Lead and an
    Email Activity that points back to it. */
module ContactDrawer {
  import opened Text
  import opened Records
  import opened Constants

  datatype FormData = FormData(name: string, email: string, company: string, message: string)

  const EmptyForm: FormData := FormData("", "", "", "")

  /** The Lead built from the form: `lead-<ms>` as id, 'Private User' when
      no company was given (an empty string is falsy). */
  function NewLead(form: FormData, idMs: nat, createdOn: string): Record
  {
    map["id" := Str("lead-" + NatToString(idMs)),
        "fullName" := Str(form.name),
        "email" := Str(form.email),
        "company" := Str(if form.company != "" then form.company else "Private User"),
        "phone" := Str(""),
        "status" := Str("New"),
        "source" := Str("Portfolio Website"),
        "createdOn" := Str(createdOn),
        "ownerId" := Str("System")]
  }

  /** The Activity built from the form; its due date is the date part of the
      ISO timestamp `dueIso` (the text before the first 'T'). */
  function NewActivity(form: FormData, leadId: Value, idMs: nat, dueIso: string, createdOn: string): Record
  {
    map["id" := Str("act-" + NatToString(idMs)),
        "type" := Str("Email"),
        "subject" := Str("Contact Request from " + form.name),
        "description" := Str(form.message),
        "dueDate" := Str(Split(dueIso, 'T')[0]),
        "status" := Str("Open"),
        "regardingId" := leadId,
        "regardingType" := Str("Lead"),
        "createdOn" := Str(createdOn),
        "ownerId" := Str("Shivam")]
  }

  /** The store after a submission: the Lead is added under "Lead" and the
      Activity under "Activity", in that order. */
  function SubmitSpec(c: Collections, lead: Record, activity: Record): (r: Collections)
    ensures r.leads == c.leads + [lead]
    ensures r.accounts == c.accounts && r.contacts == c.contacts
    ensures r.opportunities == c.opportunities && r.activities == c.activities
  {
    ResolveLead();
    ResolveActivity();
    ResolveAgrees("Lead");
    ResolveAgrees("Activity");
    AddSpec(AddSpec(c, "Lead", lead), "Activity", activity)
  }

  /** The fields of the Lead a submission records. */
  lemma LeadFields(form: FormData, idMs: nat, createdOn: string)
    ensures Field(NewLead(form, idMs, createdOn), "company") ==
      Str(if form.company == "" then "Private User" else form.company)
    ensures form.company != "" ==> Field(NewLead(form, idMs, createdOn), "company") == Str(form.company)
    ensures Field(NewLead(form, idMs, createdOn), "status") == Str("New")
    ensures Field(NewLead(form, idMs, createdOn), "source") == Str("Portfolio Website")
    ensures Field(NewLead(form, idMs, createdOn), "phone") == Str("")
    ensures Field(NewLead(form, idMs, createdOn), "ownerId") == Str("System")
    ensures Field(NewLead(form, idMs, createdOn), "fullName") == Str(form.name)
    ensures Field(NewLead(form, idMs, createdOn), "email") == Str(form.email)
  {
  }

  /** The Activity refers to the Lead created with it, by the Lead's id. */
  lemma ActivityPointsToLead(form: FormData, leadMs: nat, actMs: nat, dueIso: string,
                             leadCreated: string, actCreated: string)
    ensures var lead := NewLead(form, leadMs, leadCreated);
            var act := NewActivity(form, Field(lead, "id"), actMs, dueIso, actCreated);
            && Field(act, "regardingId") == Field(lead, "id")
            && Field(act, "regardingType") == Str("Lead")
            && Field(act, "subject") == Str("Contact Request from " + form.name)
            && Field(act, "status") == Str("Open")
            && Field(act, "description") == Str(form.message)
  {
  }

  /** The due date is the date part of the timestamp: for `yyyy-mm-ddThh:...`
      it is the ten characters before the 'T'. */
  lemma DueDateIsDatePart(dueIso: string)
    requires |dueIso| > 10 && dueIso[10] == 'T' && 'T' !in dueIso[..10]
    ensures Split(dueIso, 'T')[0] == dueIso[..10]
  {
    SplitFirst(dueIso, 'T', 10);
  }

  /** The drawer's form state. */
  class Drawer {
    var formData: FormData
    var loading: bool

    constructor ()
      ensures formData == EmptyForm && !loading
    {
      formData := EmptyForm;
      loading := false;
    }

    /** `handleSubmit` once its delay has run: two adds, then the form is
        cleared. `Date.now()` and `new Date().toISOString()` readings come in
        as parameters. */
    method HandleSubmit(store: Store, leadMs: nat, leadCreated: string, actMs: nat, dueIso: string,
                        actCreated: string)
      modifies this, store
      ensures var lead := NewLead(old(formData), leadMs, leadCreated);
              store.Contents() == SubmitSpec(old(store.Contents()), lead,
                NewActivity(old(formData), Field(lead, "id"), actMs, dueIso, actCreated))
      ensures store.leads == old(store.leads) + [NewLead(old(formData), leadMs, leadCreated)]
      ensures store.activities == old(store.activities)
      ensures formData == EmptyForm && !loading
    {
      loading := true;
      var newLead := NewLead(formData, leadMs, leadCreated);
      store.Add("Lead", newLead);
      var newActivity := NewActivity(formData, Field(newLead, "id"), actMs, dueIso, actCreated);
      store.Add("Activity", newActivity);
      loading := false;
      formData := EmptyForm;
    }
  }
}
