/**
 * The public consultation form: seven text fields, a required-field guard,
 * a best-effort insert whose outcome is never looked at, and two timers
 * (the simulated submission delay and the success-panel timeout), each of
 * which is an explicit event here.
 */
module ConsultationPage {
  import opened Records
  import Api

  /** The form's fields, as the inputs' ids name them. */
  datatype FieldId = Name | Email | Phone | BusinessName | Website | Industry | Message

  datatype FormData = FormData(
    name: string,
    email: string,
    phone: string,
    businessName: string,
    website: string,
    industry: string,
    message: string)

  const EmptyForm: FormData := FormData("", "", "", "", "", "", "")

  function GetField(form: FormData, id: FieldId): (value: string) {
    match id
    case Name => form.name
    case Email => form.email
    case Phone => form.phone
    case BusinessName => form.businessName
    case Website => form.website
    case Industry => form.industry
    case Message => form.message
  }

  /** `handleChange`'s update: the field the input names takes the value, every other field is kept. */
  function SetField(form: FormData, id: FieldId, value: string): (r: FormData)
    ensures GetField(r, id) == value
    ensures forall other :: other != id ==> GetField(r, other) == GetField(form, other)
  {
    match id
    case Name => form.(name := value)
    case Email => form.(email := value)
    case Phone => form.(phone := value)
    case BusinessName => form.(businessName := value)
    case Website => form.(website := value)
    case Industry => form.(industry := value)
    case Message => form.(message := value)
  }

  /** The fields the submit guard insists on; the website is optional. */
  const RequiredFields: seq<FieldId> := [Name, Email, Phone, BusinessName, Industry, Message]

  /** The submit guard: the six required fields are all non-empty. */
  predicate RequiredFilled(form: FormData): (ok: bool)
    ensures ok <==> forall id :: id in RequiredFields ==> GetField(form, id) != ""
  {
    assert Name in RequiredFields && Email in RequiredFields && Phone in RequiredFields;
    assert BusinessName in RequiredFields && Industry in RequiredFields && Message in RequiredFields;
    form.name != "" && form.email != "" && form.phone != "" &&
    form.businessName != "" && form.industry != "" && form.message != ""
  }

  /** The guard passes exactly when every field but the website is non-empty. */
  lemma RequiredFilledMeansAllButWebsite(form: FormData)
    ensures RequiredFilled(form) <==> forall id :: id != Website ==> GetField(form, id) != ""
    ensures forall id :: id in RequiredFields <==> id != Website
  {
    if !RequiredFilled(form) {
      var id :| id in RequiredFields && GetField(form, id) == "";
      assert id != Website;
    }
  }

  /** What the website holds never decides the guard, and the empty form never passes it. */
  lemma GuardIgnoresWebsite(form: FormData, website: string)
    ensures RequiredFilled(SetField(form, Website, website)) == RequiredFilled(form)
    ensures !RequiredFilled(EmptyForm)
  {
  }

  /** The form a row reads back as: a `null` website as the empty field. */
  function FormOf(lead: ConsultationInsert): (form: FormData) {
    FormData(lead.name, lead.email, lead.phone, lead.businessName,
      lead.website.GetOr(""), lead.industry, lead.message)
  }

  /** The row the form inserts: the six required fields as typed, an empty website as `null`. */
  function InsertPayload(form: FormData): (lead: ConsultationInsert)
    ensures FormOf(lead) == form
    ensures lead.website.None? <==> form.website == ""
  {
    ConsultationInsert(form.name, form.email, form.phone, form.businessName,
      if form.website == "" then None else Some(form.website), form.industry, form.message)
  }

  /**
   * The payload loses nothing: the form can be read back from it, and a row
   * whose website is `null` or non-empty is the payload of its own form.
   */
  lemma PayloadRoundTrip(form: FormData, lead: ConsultationInsert)
    ensures FormOf(InsertPayload(form)) == form
    ensures lead.website != Some("") ==> InsertPayload(FormOf(lead)) == lead
    ensures InsertPayload(form).website.None? <==> form.website == ""
  {
  }

  /** The state of the form page, with the timers it has scheduled and not yet seen fire. */
  class Form {
    var formData: FormData
    var isSubmitting: bool
    var isSuccess: bool
    /** Submission delays (1500 ms) scheduled and not yet elapsed. */
    var pendingSubmitDelays: nat
    /** Success-panel timeouts (5000 ms) scheduled and not yet elapsed. */
    var pendingSuccessTimeouts: nat
    /** The inserts sent to the store, in order. */
    var outbox: seq<Api.StoreCall>

    /** Submitting waits on a scheduled delay, and the success panel on a scheduled timeout. */
    predicate Valid()
      reads this
    {
      (isSubmitting ==> pendingSubmitDelays > 0) && (isSuccess ==> pendingSuccessTimeouts > 0)
    }

    constructor ()
      ensures Valid()
      ensures formData == EmptyForm && !isSubmitting && !isSuccess
      ensures pendingSubmitDelays == 0 && pendingSuccessTimeouts == 0 && outbox == []
    {
      formData := EmptyForm;
      isSubmitting, isSuccess := false, false;
      pendingSubmitDelays, pendingSuccessTimeouts := 0, 0;
      outbox := [];
    }

    method HandleChange(id: FieldId, value: string)
      requires Valid()
      modifies this`formData
      ensures Valid()
      ensures formData == SetField(old(formData), id, value)
    {
      formData := SetField(formData, id, value);
    }

    /**
     * `handleSubmit`: when the guard fails nothing changes and nothing is
     * sent; otherwise the form is submitting, the delay is scheduled and the
     * insert is sent. What the store answers to the insert plays no part.
     */
    method HandleSubmit(insertReply: Api.Reply<()>)
      requires Valid()
      modifies this`isSubmitting, this`pendingSubmitDelays, this`outbox
      ensures Valid()
      ensures !RequiredFilled(formData) ==>
        isSubmitting == old(isSubmitting) && pendingSubmitDelays == old(pendingSubmitDelays) && outbox == old(outbox)
      ensures RequiredFilled(formData) ==>
        && isSubmitting
        && pendingSubmitDelays == old(pendingSubmitDelays) + 1
        && outbox == old(outbox) + [Api.InsertLead(InsertPayload(formData))]
    {
      if !RequiredFilled(formData) {
        return;
      }
      isSubmitting := true;
      pendingSubmitDelays := pendingSubmitDelays + 1;
      outbox := outbox + [Api.InsertLead(InsertPayload(formData))];
    }

    /** The submission delay elapses: success shows, the form is cleared, the timeout is scheduled and submitting ends. */
    method SubmitDelayElapsed()
      requires Valid() && pendingSubmitDelays > 0
      modifies this`formData, this`isSubmitting, this`isSuccess, this`pendingSubmitDelays, this`pendingSuccessTimeouts
      ensures Valid()
      ensures isSuccess && !isSubmitting && formData == EmptyForm
      ensures pendingSubmitDelays == old(pendingSubmitDelays) - 1
      ensures pendingSuccessTimeouts == old(pendingSuccessTimeouts) + 1
    {
      isSuccess := true;
      formData := EmptyForm;
      pendingSuccessTimeouts := pendingSuccessTimeouts + 1;
      isSubmitting := false;
      pendingSubmitDelays := pendingSubmitDelays - 1;
    }

    /** The success-panel timeout elapses: back to the form. */
    method SuccessTimeoutElapsed()
      requires Valid() && pendingSuccessTimeouts > 0
      modifies this`isSuccess, this`pendingSuccessTimeouts
      ensures Valid()
      ensures !isSuccess
      ensures pendingSuccessTimeouts == old(pendingSuccessTimeouts) - 1
    {
      isSuccess := false;
      pendingSuccessTimeouts := pendingSuccessTimeouts - 1;
    }

    /** "Submit Another Request", on the success panel: back to the form. */
    method SubmitAnother()
      requires Valid() && isSuccess
      modifies this`isSuccess
      ensures Valid()
      ensures !isSuccess
    {
      isSuccess := false;
    }
  }

  /**
   * A whole run from a filled-in form: submit, then the delay elapses. The
   * success panel shows on a cleared form with one insert sent, whatever
   * the store answered.
   */
  method SubmitThenDelay(form: Form, insertReply: Api.Reply<()>)
    requires form.Valid() && RequiredFilled(form.formData)
    modifies form
    ensures form.Valid()
    ensures form.isSuccess && !form.isSubmitting && form.formData == EmptyForm
    ensures form.outbox == old(form.outbox) + [Api.InsertLead(InsertPayload(old(form.formData)))]
    ensures form.pendingSubmitDelays == old(form.pendingSubmitDelays)
    ensures form.pendingSuccessTimeouts == old(form.pendingSuccessTimeouts) + 1
  {
    form.HandleSubmit(insertReply);
    form.SubmitDelayElapsed();
  }
}
