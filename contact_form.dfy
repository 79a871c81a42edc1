/** The contact form (src/app/contact_us/page.tsx): four text fields, a
    `loading` flag and an error and a success message. Submitting clears
    the messages, refuses an empty purpose without posting, and otherwise
    posts the fields and records the server's answer. */
module ContactForm {
  import opened Wrappers

  const PurposeRequired := "Purpose is required."
  const DefaultError := "An error occurred while submitting the form."

  /** The four fields, all empty: the initial form and the form after a
      successful submission. */
  function EmptyForm(): (form: map<string, string>)
    ensures form.Keys == {"name", "email", "purpose", "message"}
    ensures forall key :: key in form ==> form[key] == ""
  {
    map["name" := "", "email" := "", "purpose" := "", "message" := ""]
  }

  /** The answer to the post: a response whose `data.message` may be
      missing, or a rejection whose `response.data.error` may be missing. */
  datatype PostOutcome = Accepted(message: Option<string>) | Rejected(serverError: Option<string>)

  /** `error.response?.data?.error || DefaultError` */
  function ErrorMessage(serverError: Option<string>): (message: string)
    ensures message != ""
    ensures serverError.Some? && serverError.value != "" ==> message == serverError.value
    ensures serverError.None? || serverError.value == "" ==> message == DefaultError
  {
    if serverError.Some? && serverError.value != "" then serverError.value else DefaultError
  }

  class ContactPage {
    var formData: map<string, string>
    var loading: bool
    var error: Option<string>
    var success: Option<string>

    /** A field as the form reads it; a field never set reads as empty. */
    function Field(key: string): (value: string)
      reads this
      ensures key in formData ==> value == formData[key]
      ensures key !in formData ==> value == ""
    {
      if key in formData then formData[key] else ""
    }

    /** All four fields are present. */
    predicate HasFields()
      reads this
    {
      EmptyForm().Keys <= formData.Keys
    }

    constructor ()
      ensures formData == EmptyForm() && HasFields()
      ensures !loading && error == None && success == None
    {
      formData := EmptyForm();
      loading, error, success := false, None, None;
    }

    /** `handleChange`: the field named by the input's id takes the typed
        value; every other field keeps its value. */
    method HandleChange(id: string, value: string)
      modifies this`formData
      ensures formData == old(formData)[id := value]
      ensures Field(id) == value
      ensures forall key :: key != id ==> Field(key) == old(Field(key))
      ensures old(HasFields()) ==> HasFields()
    {
      formData := formData[id := value];
    }

    /** `handleSelectChange`: only the purpose changes. */
    method HandleSelectChange(value: string)
      modifies this`formData
      ensures formData == old(formData)["purpose" := value]
      ensures Field("purpose") == value
      ensures forall key :: key != "purpose" ==> Field(key) == old(Field(key))
      ensures old(HasFields()) ==> HasFields()
    {
      formData := formData["purpose" := value];
    }

    /** The part of `handleSubmit` before the post: loading starts and both
        messages are cleared; with an empty purpose the error is set,
        loading ends and no post is made (`proceed` is false).  The fields
        are not touched. */
    method BeginSubmit() returns (proceed: bool)
      modifies this`loading, this`error, this`success
      ensures proceed <==> Field("purpose") != ""
      ensures success == None
      ensures proceed ==> loading && error == None
      ensures !proceed ==> !loading && error == Some(PurposeRequired)
    {
      loading := true;
      error := None;
      success := None;
      proceed := true;
      if Field("purpose") == "" {
        error := Some(PurposeRequired);
        loading := false;
        proceed := false;
      }
    }

    /** The part of `handleSubmit` after the post: an acceptance records
        the server's message and empties the form, a rejection records the
        server's or the default error and keeps the form; loading ends
        either way. */
    method FinishSubmit(outcome: PostOutcome)
      requires loading && error == None && success == None
      modifies this`formData, this`loading, this`error, this`success
      ensures !loading
      ensures outcome.Accepted? ==> success == outcome.message && error == None && formData == EmptyForm()
      ensures outcome.Rejected? ==>
        error == Some(ErrorMessage(outcome.serverError)) && success == None && formData == old(formData)
    {
      match outcome {
        case Accepted(message) =>
          success := message;
          formData := EmptyForm();
        case Rejected(serverError) =>
          error := Some(ErrorMessage(serverError));
      }
      loading := false;
    }

    /** `handleSubmit`, with `outcome` standing for the server's answer.
        `posted` is the form sent, if one was. */
    method HandleSubmit(outcome: PostOutcome) returns (posted: Option<map<string, string>>)
      modifies this`formData, this`loading, this`error, this`success
      ensures !loading
      ensures old(Field("purpose")) == "" ==>
        posted == None && error == Some(PurposeRequired) && success == None && formData == old(formData)
      ensures old(Field("purpose")) != "" ==> posted == Some(old(formData))
      ensures old(Field("purpose")) != "" && outcome.Accepted? ==>
        success == outcome.message && error == None && formData == EmptyForm()
      ensures old(Field("purpose")) != "" && outcome.Rejected? ==>
        error == Some(ErrorMessage(outcome.serverError)) && success == None && formData == old(formData)
      ensures HasFields() <==> old(HasFields()) || (old(Field("purpose")) != "" && outcome.Accepted?)
    {
      posted := None;
      var proceed := BeginSubmit();
      if proceed {
        posted := Some(formData);
        FinishSubmit(outcome);
      }
    }
  }
}
