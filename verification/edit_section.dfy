/** The "Edit Section" dialog: one name field and an update button. */
module EditSection {
  import opened Base
  import opened Api

  datatype Section = Section(id: nat, name: string)

  datatype State = State(name: string, loading: bool, error: string)

  const EmptyName: string := "Section name cannot be empty"
  const Fallback: string := "Failed to update section"

  /** The dialog opens with the section's current name in the field. */
  function Init(section: Section): (s: State)
    ensures s.name == section.name && !s.loading && s.error == ""
  {
    State(section.name, false, "")
  }

  /** `update` up to the call: the name is checked trimmed but sent as
      typed, to the section's own URL. */
  function Update(section: Section, s: State): (r: (State, seq<Effect>))
    ensures Sends(r.1) <==> !IsBlank(s.name)
    ensures !Sends(r.1) ==> r.0 == s.(error := EmptyName) && r.1 == []
    ensures Sends(r.1) ==> r.1 == [Send(UpdateSection(section.id, s.name))]
    ensures Sends(r.1) ==> r.0.loading && r.0.error == "" && r.0.name == s.name
    ensures Sends(r.1) ==> PathOf(r.1[0].request) == "/api/sections/" + Decimal.Show(section.id)
  {
    if IsBlank(s.name) then
      (s.(error := EmptyName), [])
    else
      var effects := [Send(UpdateSection(section.id, s.name))];
      assert effects[0].Send?;
      (s.(loading := true, error := ""), effects)
  }

  /** `update` after the call settles: only a success tells the parent. */
  function Settle(s: State, outcome: Outcome): (r: (State, seq<Effect>))
    ensures !r.0.loading && r.0.name == s.name
    ensures outcome.Succeeded? ==> r.1 == [OnSuccess] && r.0.error == s.error
    ensures outcome.Failed? ==> r.1 == [] && r.0.error == ShownError(outcome.message, Fallback)
    ensures OnSuccess in r.1 <==> outcome.Succeeded?
  {
    match outcome
    case Succeeded => (s.(loading := false), [OnSuccess])
    case Failed(m) => (s.(loading := false, error := ShownError(m, Fallback)), [])
  }

  /** Enter in the name field runs `update`; other keys do nothing. */
  function KeyPress(section: Section, s: State, key: string): (r: (State, seq<Effect>))
    ensures key == "Enter" ==> r == Update(section, s)
    ensures key != "Enter" ==> r == (s, [])
  {
    if key == "Enter" then Update(section, s) else (s, [])
  }

  /** A name with any visible character passes the check and is sent as
      typed, surrounding whitespace included. */
  lemma NameSentAsTyped(section: Section, s: State, i: nat)
    requires i < |s.name| && !IsJsWhitespace(s.name[i])
    ensures Update(section, s).1 == [Send(UpdateSection(section.id, s.name))]
  {
    BlankIffAllWhitespace(s.name);
  }
}
