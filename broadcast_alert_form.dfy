/**
 * The admin's alert form: a disaster type and a message, validated on
 * submit (the type must be one of the four disaster types, the message at
 * least ten characters). A valid submission is sent to the dashboard once
 * and the form goes back to its defaults; an invalid one sends nothing.
 */
module BroadcastAlertForm {
  import opened Wrappers
  import opened Types

  /** What the dashboard receives: an alert without id and creation time. */
  datatype AlertDraft = AlertDraft(alertType: DisasterType, message: string)

  /** The raw form values, as typed or selected. */
  datatype FormValues = FormValues(typeName: string, message: string)

  const MinMessageLength: nat := 10

  /** The form's default values: type flood, empty message. */
  const Defaults: FormValues := FormValues("flood", "")

  /** The form schema: the enum check on the type and the minimum message length. */
  function Validate(v: FormValues): (r: Option<AlertDraft>)
    ensures r.Some? <==> ParseDisasterType(v.typeName).Some? && |v.message| >= MinMessageLength
    ensures r.Some? ==> DisasterTypeName(r.value.alertType) == v.typeName && r.value.message == v.message
  {
    var t := ParseDisasterType(v.typeName);
    if t.Some? && |v.message| >= MinMessageLength then Some(AlertDraft(t.value, v.message)) else None
  }

  /** The defaults alone cannot be submitted: the empty message is too short. */
  lemma DefaultsRejected()
    ensures Validate(Defaults).None?
  {
  }

  /** Every draft with a long enough message is what the form produces from its own values. */
  lemma ValidateDraft(d: AlertDraft)
    requires |d.message| >= MinMessageLength
    ensures Validate(FormValues(DisasterTypeName(d.alertType), d.message)) == Some(d)
  {
    ParseDisasterTypeName(d.alertType);
  }

  class Form {
    var values: FormValues
    var isSubmitting: bool

    constructor()
      ensures values == Defaults && !isSubmitting
    {
      values := Defaults;
      isSubmitting := false;
    }

    method SetType(typeName: string)
      modifies this
      ensures values == old(values).(typeName := typeName) && isSubmitting == old(isSubmitting)
    {
      values := values.(typeName := typeName);
    }

    method SetMessage(message: string)
      modifies this
      ensures values == old(values).(message := message) && isSubmitting == old(isSubmitting)
    {
      values := values.(message := message);
    }

    /**
     * `handleSubmit(onSubmit)`: on valid values the validated draft is sent
     * once and the form is reset to its defaults; on invalid values nothing
     * is sent and the values stay for correction.
     */
    method Submit() returns (sent: Option<AlertDraft>)
      modifies this
      ensures sent == Validate(old(values))
      ensures sent.Some? ==> values == Defaults
      ensures sent.None? ==> values == old(values) && isSubmitting == old(isSubmitting)
      ensures sent.Some? ==> !isSubmitting
    {
      sent := Validate(values);
      if sent.Some? {
        isSubmitting := true;
        values := Defaults;
        isSubmitting := false;
      }
    }
  }
}
