/** The "Add New Password" form: three text fields, a save button guarded
    by a `loading` flag and an inline error line. */
module AddPassword {
  import opened Base
  import opened Api

  datatype Form = Form(title: string, usernameOrEmail: string, password: string)

  datatype State = State(form: Form, loading: bool, error: string)

  const Required: string := "Title and password are required"
  const Fallback: string := "Failed to add password"

  /** The form as it first renders. */
  function Init(): (s: State)
    ensures s.form.title == s.form.usernameOrEmail == s.form.password == ""
    ensures !s.loading && s.error == ""
  {
    State(Form("", "", ""), false, "")
  }

  /** The request the form sends: every form field, plus the section it
      belongs to. */
  function Payload(form: Form, sectionId: string): (r: Request)
    ensures r.CreatePassword? && MethodOf(r) == Post && PathOf(r) == "/api/passwords"
    ensures r.title == form.title && r.usernameOrEmail == form.usernameOrEmail
    ensures r.password == form.password && r.forSection == sectionId
  {
    CreatePassword(form.title, form.usernameOrEmail, form.password, sectionId)
  }

  /** Both required fields hold something other than whitespace. */
  predicate Complete(form: Form) {
    !IsBlank(form.title) && !IsBlank(form.password)
  }

  /** `submit` up to the call: the blank-field guard, then the request. */
  function Submit(s: State, sectionId: string): (r: (State, seq<Effect>))
    ensures Sends(r.1) <==> Complete(s.form)
    ensures !Sends(r.1) ==> r.0 == s.(error := Required) && r.1 == []
    ensures Sends(r.1) ==> r.1 == [Send(Payload(s.form, sectionId))]
    ensures Sends(r.1) ==> r.0.form == s.form && r.0.loading && r.0.error == ""
  {
    if !Complete(s.form) then
      (s.(error := Required), [])
    else
      var effects := [Send(Payload(s.form, sectionId))];
      assert effects[0].Send?;
      (s.(loading := true, error := ""), effects)
  }

  /** `submit` after the call settles: the parent is told on success, the
      error line is filled on failure, and `loading` drops either way. */
  function Settle(s: State, outcome: Outcome): (r: (State, seq<Effect>))
    ensures !r.0.loading && r.0.form == s.form
    ensures outcome.Succeeded? ==> r.0.error == s.error && r.1 == [OnSuccess]
    ensures outcome.Failed? ==> r.0.error == ShownError(outcome.message, Fallback) && r.1 == []
    ensures outcome.Failed? ==> r.0.error != ""
  {
    match outcome
    case Succeeded => (s.(loading := false), [OnSuccess])
    case Failed(m) => (s.(loading := false, error := ShownError(m, Fallback)), [])
  }

  /** A request goes out exactly when both the title and the password hold
      a character that is not whitespace. */
  lemma SubmitNeedsVisibleText(s: State, sectionId: string)
    ensures Sends(Submit(s, sectionId).1) <==>
      (exists i :: 0 <= i < |s.form.title| && !IsJsWhitespace(s.form.title[i])) &&
      (exists j :: 0 <= j < |s.form.password| && !IsJsWhitespace(s.form.password[j]))
  {
    BlankIffAllWhitespace(s.form.title);
    BlankIffAllWhitespace(s.form.password);
  }

  /** Submitting a valid form and having the call fail leaves the form as
      typed, not loading, and showing a non-empty error. */
  lemma FailedSubmitKeepsForm(s: State, sectionId: string, message: Option<string>)
    requires !IsBlank(s.form.title) && !IsBlank(s.form.password)
    ensures var after := Settle(Submit(s, sectionId).0, Failed(message)).0;
      after.form == s.form && !after.loading && after.error != ""
      && (Truthy(message) ==> after.error == message.value)
  {
  }
}
