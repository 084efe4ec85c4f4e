/** The section list on the dashboard: one row per section that opens it,
    an edit button per row, and the "New section name" field with its Add
    button. */
module SectionList {
  import opened Base
  import opened Api
  import EditSection

  datatype State = State(name: string, loading: bool, edit: Option<EditSection.Section>)

  function Init(): (s: State)
    ensures s.name == "" && !s.loading && s.edit.None?
  {
    State("", false, None)
  }

  /** `add` up to the call: a blank name is ignored without a word. */
  function Add(s: State): (r: (State, seq<Effect>))
    ensures Sends(r.1) <==> !IsBlank(s.name)
    ensures !Sends(r.1) ==> r == (s, [])
    ensures Sends(r.1) ==> r.1 == [Send(CreateSection(s.name))] && r.0 == s.(loading := true)
  {
    if IsBlank(s.name) then (s, [])
    else
      var effects := [Send(CreateSection(s.name))];
      assert effects[0].Send?;
      (s.(loading := true), effects)
  }

  /** `add` after the call settles: success clears the field and refreshes
      the list; failure keeps what was typed. */
  function SettleAdd(s: State, outcome: Outcome): (r: (State, seq<Effect>))
    ensures !r.0.loading && r.0.edit == s.edit
    ensures outcome.Succeeded? ==> r.0.name == "" && r.1 == [Refresh]
    ensures outcome.Failed? ==> r.0.name == s.name && r.1 == []
  {
    match outcome
    case Succeeded => (s.(name := "", loading := false), [Refresh])
    case Failed(_) => (s.(loading := false), [])
  }

  /** The Add button is disabled while an add is in flight or while the
      name is blank once trimmed. */
  predicate AddDisabled(s: State) {
    s.loading || IsBlank(s.name)
  }

  /** `handleKeyPress`: Enter runs `add`, every other key does nothing. */
  function KeyPress(s: State, key: string): (r: (State, seq<Effect>))
    ensures key == "Enter" ==> r == Add(s)
    ensures key != "Enter" ==> r == (s, [])
  {
    if key == "Enter" then Add(s) else (s, [])
  }

  /** The page a section row opens. */
  function SectionPath(id: nat): (path: string)
    ensures path == "/section/" + Decimal.Show(id)
    ensures |path| > |"/section/"| && path[..|"/section/"|] == "/section/"
  {
    "/section/" + Decimal.Show(id)
  }

  /** Clicking a section row. */
  function OpenSection(section: EditSection.Section): (effects: seq<Effect>)
    ensures effects == [NavigateTo(SectionPath(section.id))]
  {
    [NavigateTo(SectionPath(section.id))]
  }

  /** The row's edit button; it does not also open the section. */
  function OpenEdit(s: State, section: EditSection.Section): (r: State)
    ensures r.edit == Some(section) && r.name == s.name && r.loading == s.loading
  {
    s.(edit := Some(section))
  }

  /** The edit dialog's `onSuccess`: close it and refresh the list. */
  function EditSucceeded(s: State): (r: (State, seq<Effect>))
    ensures r.0.edit.None? && r.1 == [Refresh]
  {
    (s.(edit := None), [Refresh])
  }

  /** The button is enabled exactly when a click would send a request and
      nothing is in flight. */
  lemma AddEnabledIff(s: State)
    ensures !AddDisabled(s) <==> !s.loading && Sends(Add(s).1)
  {
  }

  /** `loading` disables only the button: Enter in the field still sends a
      second request while the first is in flight. */
  lemma EnterIgnoresLoading(s: State)
    requires s.loading && !IsBlank(s.name)
    ensures AddDisabled(s)
    ensures Sends(KeyPress(s, "Enter").1)
  {
  }

  /** A successful add leaves an empty field, so the button is disabled
      until something is typed again. */
  lemma AddedThenDisabled(s: State)
    requires !IsBlank(s.name)
    ensures AddDisabled(SettleAdd(Add(s).0, Succeeded).0)
  {
    assert IsBlank("");
  }

  /** Different sections open different pages. */
  lemma SectionPathInjective(a: nat, b: nat)
    ensures SectionPath(a) == SectionPath(b) ==> a == b
  {
    Decimal.PrefixedShowInjective("/section/", a, b);
  }
}
