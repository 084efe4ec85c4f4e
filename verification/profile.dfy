/** The profile page: the account details form, the change-password dialog
    and the delete-account dialog with its retype-the-code gate. */
module Profile {
  import opened Base
  import opened Api

  datatype PasswordFields = PasswordFields(oldPassword: string, newPassword: string, confirmPassword: string)

  datatype State = State(
    username: string,
    email: string,
    pwd: PasswordFields,
    msg: string,
    err: string,
    updating: bool,
    changingPwd: bool,
    showDeleteModal: bool,
    deleteCode: string,
    enteredCode: string,
    deleting: bool)

  const ProfileRequired: string := "Username and email are required"
  const ProfileUpdated: string := "Profile updated successfully!"
  const ProfileFallback: string := "Failed to update profile"

  const AllRequired: string := "All fields are required"
  const Mismatch: string := "New passwords do not match"
  const TooShort: string := "New password must be at least 6 characters"
  const PasswordChanged: string := "Password changed successfully!"
  const PasswordFallback: string := "Old password is incorrect"

  const CodeMismatch: string := "The code you entered does not match. Please try again."
  const DeleteFallback: string := "Failed to delete account. Please try again."

  const EmptyPasswords: PasswordFields := PasswordFields("", "", "")

  // ---- account details -------------------------------------------------

  /** `updateProfile` up to the call. */
  function UpdateProfile(s: State): (r: (State, seq<Effect>))
    ensures Sends(r.1) <==> !IsBlank(s.username) && !IsBlank(s.email)
    ensures !Sends(r.1) ==> r.0 == s.(err := ProfileRequired) && r.1 == []
    ensures Sends(r.1) ==> r.1 == [Send(Request.UpdateProfile(s.username, s.email))]
    ensures Sends(r.1) ==> r.0.updating && r.0.err == "" && r.0.msg == ""
  {
    if IsBlank(s.username) || IsBlank(s.email) then
      (s.(err := ProfileRequired), [])
    else
      var effects := [Send(Request.UpdateProfile(s.username, s.email))];
      assert effects[0].Send?;
      (s.(updating := true, err := "", msg := ""), effects)
  }

  /** `updateProfile` after the call settles. */
  function SettleUpdateProfile(s: State, outcome: Outcome): (r: State)
    ensures !r.updating && r.username == s.username && r.email == s.email
    ensures outcome.Succeeded? ==> r.msg == ProfileUpdated && r.err == s.err
    ensures outcome.Failed? ==> r.err == ShownError(outcome.message, ProfileFallback) && r.msg == s.msg
  {
    match outcome
    case Succeeded => s.(updating := false, msg := ProfileUpdated)
    case Failed(m) => s.(updating := false, err := ShownError(m, ProfileFallback))
  }

  // ---- change password ---------------------------------------------------

  /** The checks of `changePassword`, in order; the first that fails names
      the message. Lengths are JavaScript lengths, and nothing is trimmed. */
  function PasswordProblem(p: PasswordFields): (problem: Option<string>)
    ensures problem.None? <==>
      p.oldPassword != "" && p.newPassword == p.confirmPassword && Utf16Length(p.newPassword) >= 6
    ensures problem == Some(AllRequired) <==>
      p.oldPassword == "" || p.newPassword == "" || p.confirmPassword == ""
    ensures problem == Some(Mismatch) <==>
      p.oldPassword != "" && p.newPassword != "" && p.confirmPassword != "" && p.newPassword != p.confirmPassword
    ensures problem == Some(TooShort) <==>
      p.oldPassword != "" && p.newPassword != "" && p.newPassword == p.confirmPassword && Utf16Length(p.newPassword) < 6
  {
    if p.oldPassword == "" || p.newPassword == "" || p.confirmPassword == "" then Some(AllRequired)
    else if p.newPassword != p.confirmPassword then Some(Mismatch)
    else if Utf16Length(p.newPassword) < 6 then Some(TooShort)
    else None
  }

  /** `changePassword` up to the call: only the old and new passwords are
      sent, exactly as typed. */
  function ChangePassword(s: State): (r: (State, seq<Effect>))
    ensures Sends(r.1) <==> PasswordProblem(s.pwd).None?
    ensures !Sends(r.1) ==> r.0 == s.(err := PasswordProblem(s.pwd).value) && r.1 == []
    ensures Sends(r.1) ==> r.1 == [Send(Request.ChangePassword(s.pwd.oldPassword, s.pwd.newPassword))]
    ensures Sends(r.1) ==> r.0.changingPwd && r.0.err == "" && r.0.msg == "" && r.0.pwd == s.pwd
  {
    match PasswordProblem(s.pwd)
    case Some(problem) => (s.(err := problem), [])
    case None =>
      var effects := [Send(Request.ChangePassword(s.pwd.oldPassword, s.pwd.newPassword))];
      assert effects[0].Send?;
      (s.(changingPwd := true, err := "", msg := ""), effects)
  }

  /** `changePassword` after the call settles: success empties all three
      fields. */
  function SettleChangePassword(s: State, outcome: Outcome): (r: State)
    ensures !r.changingPwd
    ensures outcome.Succeeded? ==> r.pwd == EmptyPasswords && r.msg == PasswordChanged
    ensures outcome.Failed? ==> r.pwd == s.pwd && r.err == ShownError(outcome.message, PasswordFallback)
  {
    match outcome
    case Succeeded => s.(changingPwd := false, msg := PasswordChanged, pwd := EmptyPasswords)
    case Failed(m) => s.(changingPwd := false, err := ShownError(m, PasswordFallback))
  }

  /** Whitespace counts: six spaces typed twice pass every check. */
  lemma SpacesAreAcceptedUntrimmed(s: State)
    requires s.pwd == PasswordFields("x", "      ", "      ")
    ensures Sends(ChangePassword(s).1)
  {
  }

  /** A mismatch is reported even when the new password is also too
      short: the order of the checks decides. */
  lemma MismatchBeforeLength(s: State)
    requires s.pwd == PasswordFields("old", "ab", "abc")
    ensures ChangePassword(s).0.err == Mismatch
  {
  }

  // ---- delete account ----------------------------------------------------

  /** `handleOpenDeleteModal`, given the freshly generated code. */
  function OpenDeleteModal(s: State, code: string): (r: State)
    ensures r.showDeleteModal && r.deleteCode == code && r.enteredCode == "" && r.err == ""
    ensures code != "" ==> ConfirmDisabled(r)
  {
    s.(deleteCode := code, enteredCode := "", showDeleteModal := true, err := "")
  }

  /** The modal's close handler and the Cancel button. */
  function CloseDeleteModal(s: State): (r: State)
    ensures !r.showDeleteModal && r.deleteCode == "" && r.enteredCode == "" && r.err == ""
    ensures r.deleting == s.deleting
  {
    s.(showDeleteModal := false, enteredCode := "", deleteCode := "", err := "")
  }

  /** Cancel is disabled while the deletion is in flight; the overlay and
      Escape close the modal regardless. */
  predicate CancelDisabled(s: State) {
    s.deleting
  }

  /** Typing in the code field clears the error. */
  function TypeCode(s: State, text: string): (r: State)
    ensures r.enteredCode == text && r.err == "" && r.deleteCode == s.deleteCode
  {
    s.(enteredCode := text, err := "")
  }

  /** The confirm button is disabled while a deletion is in flight or
      while the typed code differs from the generated one. */
  predicate ConfirmDisabled(s: State) {
    s.deleting || s.enteredCode != s.deleteCode
  }

  /** `handleDeleteAccount` up to the call: the exact, case-sensitive
      comparison is the only gate. */
  function DeleteAccount(s: State): (r: (State, seq<Effect>))
    ensures Sends(r.1) <==> s.enteredCode == s.deleteCode
    ensures !Sends(r.1) ==> r.0 == s.(err := CodeMismatch) && r.1 == []
    ensures Sends(r.1) ==> r.1 == [Send(Request.DeleteAccount("DELETE"))] && r.0.deleting && r.0.err == ""
  {
    if s.enteredCode != s.deleteCode then
      (s.(err := CodeMismatch), [])
    else
      var effects := [Send(Request.DeleteAccount("DELETE"))];
      assert effects[0].Send?;
      (s.(deleting := true, err := ""), effects)
  }

  /** `handleDeleteAccount` after the call settles: success logs out and
      goes to the login page (and leaves `deleting` set); failure shows the
      error and re-enables the dialog. */
  function SettleDeleteAccount(s: State, outcome: Outcome): (r: (State, seq<Effect>))
    ensures outcome.Succeeded? ==> r.0 == s && r.1 == [Logout, NavigateTo("/login")]
    ensures outcome.Failed? ==> !r.0.deleting && r.0.err == ShownError(outcome.message, DeleteFallback) && r.1 == []
  {
    match outcome
    case Succeeded => (s, [Logout, NavigateTo("/login")])
    case Failed(m) => (s.(err := ShownError(m, DeleteFallback), deleting := false), [])
  }

  /** Enter in the code field calls `handleDeleteAccount` directly. */
  function CodeKeyPress(s: State, key: string): (r: (State, seq<Effect>))
    ensures key != "Enter" ==> r == (s, [])
    ensures key == "Enter" ==> r == DeleteAccount(s)
  {
    if key == "Enter" then DeleteAccount(s) else (s, [])
  }

  /** The confirm button is enabled exactly when the deletion could go
      through: nothing in flight and the codes equal. */
  lemma ConfirmEnabledIffGatePasses(s: State)
    ensures !ConfirmDisabled(s) <==> !s.deleting && Sends(DeleteAccount(s).1)
  {
  }

  /** Any single differing character, a change of case included, blocks
      the request. */
  lemma OneCharacterOffIsRejected(s: State, i: nat)
    requires i < |s.deleteCode| && |s.enteredCode| == |s.deleteCode|
    requires s.enteredCode[i] != s.deleteCode[i]
    ensures !Sends(DeleteAccount(s).1) && DeleteAccount(s).0.err == CodeMismatch
    ensures ConfirmDisabled(s)
  {
  }

  lemma CaseMatters(s: State)
    requires s.deleteCode == "aB3dEf7H" && s.enteredCode == "AB3dEf7H"
    ensures !Sends(DeleteAccount(s).1)
  {
  }

  /** Right after opening, the field is empty and the code is not, so the
      confirm button starts disabled and pressing Enter is refused. */
  lemma OpenedDialogStartsLocked(s: State, code: string)
    requires |code| == 8
    ensures ConfirmDisabled(OpenDeleteModal(s, code))
    ensures !Sends(CodeKeyPress(OpenDeleteModal(s, code), "Enter").1)
  {
  }

  /** Cancel is locked exactly while a deletion is in flight and unlocks
      when it fails; the overlay's close hides the dialog even meanwhile,
      without stopping the deletion. */
  lemma CancelLockedWhileDeleting(s: State, message: Option<string>)
    requires !s.deleting && s.enteredCode == s.deleteCode
    ensures !CancelDisabled(s)
    ensures var mid := DeleteAccount(s).0;
      && CancelDisabled(mid)
      && !CancelDisabled(SettleDeleteAccount(mid, Failed(message)).0)
      && !CloseDeleteModal(mid).showDeleteModal && CloseDeleteModal(mid).deleting
  {
  }

  /** Only the button honours `deleting`: with the right code typed, Enter
      in the field issues the request again while the first one is still in
      flight. */
  lemma EnterIgnoresDeleting(s: State)
    requires s.deleting && s.enteredCode == s.deleteCode
    ensures ConfirmDisabled(s)
    ensures Sends(CodeKeyPress(s, "Enter").1)
  {
  }
}
