/** The "Edit Password" form, opened on one stored entry. */
module EditPassword {
  import opened Base
  import opened Api

  /** A stored password entry as the list hands it to the form. */
  datatype Entry = Entry(id: nat, title: string, usernameOrEmail: string, password: string, sectionId: nat)

  /** The form holds a copy of the whole entry; only the three text fields
      are bound to inputs. */
  datatype State = State(form: Entry, loading: bool, error: string)

  const Required: string := "Title and password are required"
  const Fallback: string := "Failed to update password"

  /** The form opens on a copy of the entry it edits. */
  function Init(data: Entry): (s: State)
    ensures s.form.id == data.id && s.form.sectionId == data.sectionId
    ensures s.form.title == data.title && s.form.usernameOrEmail == data.usernameOrEmail
    ensures s.form.password == data.password
    ensures !s.loading && s.error == ""
  {
    State(data, false, "")
  }

  /** The update: addressed to the entry the form was opened on and keeping
      that entry's section, with the three edited text fields. */
  function Payload(data: Entry, form: Entry): (r: Request)
    ensures r.UpdatePassword? && MethodOf(r) == Put
    ensures PathOf(r) == "/api/passwords/" + Decimal.Show(data.id)
    ensures r.id == data.id && r.sectionId == data.sectionId
    ensures r.title == form.title && r.usernameOrEmail == form.usernameOrEmail && r.password == form.password
  {
    UpdatePassword(data.id, form.title, form.usernameOrEmail, form.password, data.sectionId)
  }

  /** Both required fields hold something other than whitespace. */
  predicate Complete(form: Entry) {
    !IsBlank(form.title) && !IsBlank(form.password)
  }

  /** `submit` up to the call. `data` is the entry the form was opened on. */
  function Submit(data: Entry, s: State): (r: (State, seq<Effect>))
    ensures Sends(r.1) <==> Complete(s.form)
    ensures !Sends(r.1) ==> r.0 == s.(error := Required) && r.1 == []
    ensures Sends(r.1) ==> r.1 == [Send(Payload(data, s.form))]
    ensures Sends(r.1) ==> r.0.form == s.form && r.0.loading && r.0.error == ""
  {
    if !Complete(s.form) then
      (s.(error := Required), [])
    else
      var effects := [Send(Payload(data, s.form))];
      assert effects[0].Send?;
      (s.(loading := true, error := ""), effects)
  }

  /** `submit` after the call settles. */
  function Settle(s: State, outcome: Outcome): (r: (State, seq<Effect>))
    ensures !r.0.loading && r.0.form == s.form
    ensures outcome.Succeeded? ==> r.0.error == s.error && r.1 == [OnSuccess]
    ensures outcome.Failed? ==> r.0.error == ShownError(outcome.message, Fallback) && r.1 == []
    ensures outcome.Failed? ==> r.0.error != ""
  {
    match outcome
    case Succeeded => (s.(loading := false), [OnSuccess])
    case Failed(m) => (s.(loading := false, error := ShownError(m, Fallback)), [])
  }

  /** Whatever the form holds, the update goes to the URL of the original
      entry and nowhere else: two forms opened on entries with different ids
      never send to the same URL. */
  lemma UpdateTargetsOriginal(data: Entry, s: State, other: Entry)
    requires Sends(Submit(data, s).1)
    ensures var req := Submit(data, s).1[0].request;
      req.id == data.id && req.sectionId == data.sectionId
      && (other.id != data.id ==> PathOf(req) != PathOf(Payload(other, s.form)))
  {
    var req := Submit(data, s).1[0].request;
    PathDeterminesId(req, Payload(other, s.form));
  }
}
