# Password vault front-end: the decision logic, modelled in Dafny

The application is a browser front-end for a personal password vault: a
user signs in, keeps credentials in named sections, and adds, edits,
deletes and recovers them through a remote API. Nearly all of it is markup
and HTTP calls. This project models the parts that decide something:

- the password-strength meter of the add and edit forms (`Strength`);
- the forms' validators, the requests they send and the error they show:
  add password, edit password, edit section, add section, the profile
  details, the change-password dialog (`AddPassword`, `EditPassword`,
  `EditSection`, `SectionList`, `Profile`);
- the delete-account confirmation: the generated 8-character code
  (`ConfirmCode`) and the exact-match gate in front of the deletion
  (`Profile`);
- the SnakeGame component (`Snake`); its only use site, the loading branch of
  src/pages/Register.jsx:25-27, refers to it without importing it;
- the bin page's list filter on recover and its show/hide map (`Bin`);
- the route table and the `PrivateRoute` guard (`Routes`).

Every handler is a pure function from the component's state to its next
state and a list of `Api.Effect` values: the request it would send, the
parent callback it would run (`onSuccess`, `refresh`), a navigation, a
logout or an alert. An asynchronous handler is split in two: the part
before the `await` (validation, then the request or nothing) and the part
after it, given how the call settled (`Api.Outcome`: success, or failure
with an optional server message). Random draws are explicit arguments. The
getStrength cascade appears twice in the source, character for character
(src/components/AddPassword.jsx:14-31 and src/components/EditPassword.jsx:10-27);
`Strength.GetStrength` models both. JavaScript details the model keeps:
`length` counts UTF-16 code units (`Base.Utf16Length`), `trim` removes
JavaScript's whitespace set (`Base.IsJsWhitespace`), and `m || fallback`
treats a missing and an empty message alike (`Base.ShownError`).

The files: `base.dfy` (Option, trim, lengths, the error fallback),
`decimal.dfy` (ids in URLs), `api.dfy` (requests, outcomes, effects), then
one file per source component.

## Model

| member | source | states |
|---|---|---|
| Base.BlankIffAllWhitespace | src/components/AddPassword.jsx:36 | `!s.trim()` holds exactly when every character of `s` is JavaScript whitespace, so the empty string and all-whitespace strings are rejected |
| Base.ShownError | src/components/AddPassword.jsx:46 | the shown error is the server message when it is present and non-empty, else the fallback; it is never empty when the fallback is not |
| Decimal.ParseShow | src/components/SectionList.jsx:46 | an id written into a URL reads back as the same id |
| Api.MethodOf | src/pages/Profile.jsx:144-146 | the two creations are POSTs, the account deletion alone is a DELETE, and every update, the password change and the recover are PUTs (as at AddPassword.jsx:43, SectionList.jsx:18, EditPassword.jsx:39, EditSection.jsx:18, Profile.jsx:56 and 87, Bin.jsx:30) |
| Api.PathOf | src/pages/Bin.jsx:30 | every request goes under /api/; an update or recover URL is its fixed prefix followed by the id in digits, as at EditPassword.jsx:39 and EditSection.jsx:18 |
| Api.IdReadsBackFromPath | src/pages/Bin.jsx:30 | the digits after an addressed request's prefix parse back to the id it carries |
| Api.PathDeterminesId | src/components/EditPassword.jsx:39 | two update (or recover) requests sent to the same URL address the same id |
| Strength.GetStrength | src/components/AddPassword.jsx:14-31 | the result is one of the five fixed results, its level is at most 3, and it is the no-input result exactly for the empty password |
| Strength.EmptyIsNoInput | src/components/AddPassword.jsx:15 | the empty password gives text "" and level 0, a result different from "Very Weak" although both have level 0 |
| Strength.LevelCharacterisation | src/components/AddPassword.jsx:16-30 | level 3 iff length ≥ 12 with an upper-case letter, a digit and a non-alphanumeric character; level 2 iff not strong, length ≥ 8 and an upper-case letter or digit; level 1 iff neither and length ≥ 6; "Very Weak" iff non-empty and shorter than 6 |
| Strength.LowerAndSymbolsOnlyIsWeak | src/components/AddPassword.jsx:24-29 | a password of length ≥ 6 without upper-case letters and digits is "Weak" however long it is |
| Strength.AppendNeverLowers | src/components/AddPassword.jsx:14-31 | appending one character never lowers the level |
| Strength.Examples | src/components/AddPassword.jsx:14-31 | "abc", "abcdef", "Abcdef12", "Abcdef12!@##" get levels 0, 1, 2, 3; a 12-character lower-case-and-symbol password is "Weak" |
| AddPassword.Init | src/components/AddPassword.jsx:6-12 | the form starts with three empty fields, not loading, no error |
| AddPassword.Payload | src/components/AddPassword.jsx:43 | the request is a POST to /api/passwords carrying the three form fields and the section id |
| AddPassword.Submit | src/components/AddPassword.jsx:35-41 | a request is sent iff title and password are both non-blank; otherwise the error is "Title and password are required" and nothing else changes; when sent, loading is set and the error cleared |
| AddPassword.Settle | src/components/AddPassword.jsx:42-49 | loading is false after either outcome; success calls onSuccess; failure shows the server message or "Failed to add password" |
| AddPassword.SubmitNeedsVisibleText | src/components/AddPassword.jsx:36-39 | a request is sent iff the title and the password each hold a non-whitespace character |
| AddPassword.FailedSubmitKeepsForm | src/components/AddPassword.jsx:35-49 | a valid submit whose call fails keeps the typed form, is not loading and shows a non-empty error, the server's when it gave one |
| EditPassword.Init | src/components/EditPassword.jsx:6 | the form starts as a field-for-field copy of the entry |
| EditPassword.Payload | src/components/EditPassword.jsx:39-44 | the update is a PUT to /api/passwords/{data.id} with the edited text fields and the original sectionId |
| EditPassword.Submit | src/components/EditPassword.jsx:31-41 | a request is sent iff title and password are non-blank; otherwise the error is "Title and password are required" and nothing else changes |
| EditPassword.Settle | src/components/EditPassword.jsx:45-50 | loading is false after either outcome; failure shows the server message or "Failed to update password" |
| EditPassword.UpdateTargetsOriginal | src/components/EditPassword.jsx:39-44 | whatever the form holds, the update addresses data.id with data.sectionId, and forms opened on different ids never send to the same URL |
| Profile.UpdateProfile | src/pages/Profile.jsx:47-56 | a request is sent iff username and email are non-blank; otherwise the error is "Username and email are required" |
| Profile.SettleUpdateProfile | src/pages/Profile.jsx:55-63 | updating is false after either outcome; success sets the success message; failure shows the server message or "Failed to update profile" |
| Profile.PasswordProblem | src/pages/Profile.jsx:66-80 | the checks run in order, first failure wins: any empty field, then new ≠ confirm, then new shorter than 6; no problem iff old non-empty, new = confirm and new at least 6 long |
| Profile.ChangePassword | src/pages/Profile.jsx:66-90 | a request is sent iff every check passes, and it carries only the old and new passwords as typed |
| Profile.SettleChangePassword | src/pages/Profile.jsx:86-102 | success resets all three password fields to ""; failure keeps them and shows the server message or "Old password is incorrect" |
| Profile.SpacesAreAcceptedUntrimmed | src/pages/Profile.jsx:67-90 | nothing is trimmed: a new password of six spaces, confirmed, is sent |
| Profile.MismatchBeforeLength | src/pages/Profile.jsx:72-80 | a mismatch is reported before a too-short new password |
| Profile.OpenDeleteModal | src/pages/Profile.jsx:126-132 | opening stores the new code, empties the typed code and the error, and leaves confirm disabled when the code is non-empty |
| Profile.CloseDeleteModal | src/pages/Profile.jsx:380-385 | closing hides the dialog, clears both codes and the error, and leaves the deleting flag as it was |
| Profile.TypeCode | src/pages/Profile.jsx:427-430 | typing sets the typed code and clears the error |
| Profile.DeleteAccount | src/pages/Profile.jsx:134-146 | the deletion request is sent iff the typed code equals the generated code exactly; otherwise the mismatch error is set and nothing is sent |
| Profile.SettleDeleteAccount | src/pages/Profile.jsx:143-154 | success logs out and navigates to /login; failure shows the server message or the fixed message and clears deleting |
| Profile.CodeKeyPress | src/pages/Profile.jsx:431 | Enter in the code field runs the delete handler; other keys do nothing |
| Profile.ConfirmEnabledIffGatePasses | src/pages/Profile.jsx:447 | confirm is enabled exactly when nothing is being deleted and the gate would pass |
| Profile.OneCharacterOffIsRejected | src/pages/Profile.jsx:135-138 | a typed code differing from the generated one in any single position is refused, with the mismatch error |
| Profile.CaseMatters | src/pages/Profile.jsx:135 | a code differing only in letter case is refused |
| Profile.OpenedDialogStartsLocked | src/pages/Profile.jsx:126-131 | right after opening with an 8-character code, confirm is disabled and Enter sends nothing |
| Profile.CancelLockedWhileDeleting | src/pages/Profile.jsx:461-469 | Cancel is enabled before the deletion, disabled while it is in flight, enabled again after a failure; the overlay's close still hides the dialog meanwhile and leaves the deletion running |
| Profile.EnterIgnoresDeleting | src/pages/Profile.jsx:431-447 | the deleting flag disables only the button: with the right code typed, Enter sends the request again while one is in flight |
| ConfirmCode.AlphabetShape | src/pages/Profile.jsx:106-109 | the alphabets have 10, 26, 26 and 62 characters, all digits, upper-case and lower-case letters |
| ConfirmCode.Swap | src/pages/Profile.jsx:123 | one exchange of two positions keeps the length and the multiset of characters |
| ConfirmCode.Shuffle | src/pages/Profile.jsx:123 | the shuffle keeps the length and the multiset of characters |
| ConfirmCode.Unshuffled | src/pages/Profile.jsx:111-120 | the pre-shuffle code has 8 characters, all from the 62-character alphabet |
| ConfirmCode.Generate | src/pages/Profile.jsx:105-124 | the code has length 8, only alphabet characters, at least one digit, one upper-case and one lower-case letter, and is a permutation of the pre-shuffle code |
| Snake.Init | src/components/SnakeGame.jsx:15-17 | the first state is one segment at (10,10), velocity (0,0) and food at (5,5), and it is valid |
| Snake.ChangeDirection | src/components/SnakeGame.jsx:36-55 | an arrow key never sets the exact reverse of the current velocity; velocities stay among still and the four unit vectors; other keys change nothing |
| Snake.Reset | src/components/SnakeGame.jsx:57-62 | the snake is back to [(10,10)] with velocity (0,0) and the food stays |
| Snake.Step | src/components/SnakeGame.jsx:79-123 | the game ends iff the new head leaves the grid or meets a later segment, and then resets; otherwise the new snake is the new head before the old snake, tail dropped unless the food was eaten; the result is valid |
| Snake.MoveShape | src/components/SnakeGame.jsx:83-104 | a move puts old head plus velocity in front; eating grows the snake by one, otherwise the length is unchanged |
| Snake.WallEndsGame | src/components/SnakeGame.jsx:106-115 | a head outside the 20 by 20 grid resets the game |
| Snake.Play | src/components/SnakeGame.jsx:19-34 | any sequence of key presses and ticks keeps the game valid |
| Snake.AlwaysOnGrid | src/components/SnakeGame.jsx:106-123 | from the first state, after any events, every segment lies on the grid |
| Snake.TwoKeysInOneTickReverse | src/components/SnakeGame.jsx:39-50 | two arrow keys within one tick can reverse the snake into its own neck, which ends the game on the next tick |
| Bin.WithoutId | src/pages/Bin.jsx:32 | the filter keeps exactly the entries whose id differs and is never longer |
| Bin.WithoutIdConcat | src/pages/Bin.jsx:32 | the filter distributes over concatenation, so kept entries stay in order |
| Bin.WithoutIdSingle | src/pages/Bin.jsx:32 | a single entry is kept iff its id differs |
| Bin.WithoutAbsentId | src/pages/Bin.jsx:32 | an id no entry has leaves the list unchanged |
| Bin.WithoutIdIdempotent | src/pages/Bin.jsx:32 | filtering twice by one id equals filtering once |
| Bin.WithoutIdCommutes | src/pages/Bin.jsx:32 | removing two ids in either order gives the same list |
| Bin.StartRecover | src/pages/Bin.jsx:27-30 | starting marks the id as recovering, leaves the list, and sends the recover request |
| Bin.SettleRecoverAsWritten | src/pages/Bin.jsx:31-38 | as written: success sets the list to the snapshot taken at the start, filtered; failure leaves the list and alerts; recovering is cleared either way |
| Bin.SettleRecover | src/pages/Bin.jsx:31-38 | corrected: success filters the current list, so no entry is added; failure leaves the list and alerts; recovering is cleared |
| Bin.SingleRecoverAgrees | src/pages/Bin.jsx:27-39 | with one call at a time the as-written and corrected settle agree |
| Bin.RecoverLifecycle | src/pages/Bin.jsx:27-39 | the id is recovering during the call and not after; success removes exactly that id's entries; failure changes no entry |
| Bin.OverlappingRecoversRemoveBoth | src/pages/Bin.jsx:27-39 | two overlapping successful recovers remove both ids, in either order of return |
| Bin.StaleSnapshotResurrects | src/pages/Bin.jsx:29-32 | as written, two overlapping successful recovers leave the first entry in the list |
| Bin.Toggle | src/pages/Bin.jsx:163 | the toggle flips only that id's flag and leaves every other flag |
| Bin.ToggleTwice | src/pages/Bin.jsx:163 | toggling twice restores every visible flag; the map itself returns only if the id had a flag |
| Bin.Displayed | src/pages/Bin.jsx:154 | the password is shown only when its flag is set, otherwise the 12-bullet mask |
| EditSection.Init | src/components/EditSection.jsx:6 | the edited name starts as the section's name |
| EditSection.Update | src/components/EditSection.jsx:10-18 | a request is sent iff the name is non-blank; it carries the untrimmed name to /api/sections/{id}; otherwise the error is "Section name cannot be empty" |
| EditSection.Settle | src/components/EditSection.jsx:17-24 | onSuccess runs iff the call succeeded; failure shows the server message or "Failed to update section"; loading is false after |
| EditSection.KeyPress | src/components/EditSection.jsx:38 | Enter runs update; other keys do nothing |
| EditSection.NameSentAsTyped | src/components/EditSection.jsx:11-18 | a name with any visible character is sent as typed, whitespace included |
| SectionList.Init | src/components/SectionList.jsx:10-12 | the name field starts empty, not loading, no edit dialog |
| SectionList.Add | src/components/SectionList.jsx:14-18 | a blank name changes nothing and sends nothing; otherwise loading is set and the name is posted as typed |
| SectionList.SettleAdd | src/components/SectionList.jsx:17-26 | success empties the field and refreshes; failure keeps the name; loading is false after |
| SectionList.KeyPress | src/components/SectionList.jsx:28-32 | Enter runs add; every other key does nothing |
| SectionList.SectionPath | src/components/SectionList.jsx:46 | a row's link is /section/ followed by the section id |
| SectionList.OpenSection | src/components/SectionList.jsx:46 | clicking a row navigates to that section's page |
| SectionList.OpenEdit | src/components/SectionList.jsx:55-58 | the edit button opens the dialog on that section and nothing else changes |
| SectionList.EditSucceeded | src/components/SectionList.jsx:110-113 | a successful edit closes the dialog and refreshes |
| SectionList.AddEnabledIff | src/components/SectionList.jsx:89 | Add is enabled iff nothing is loading and a click would send a request |
| SectionList.EnterIgnoresLoading | src/components/SectionList.jsx:28-32 | Enter sends a second request while one is in flight, although the button is disabled |
| SectionList.AddedThenDisabled | src/components/SectionList.jsx:14-26 | after a successful add the button is disabled until something is typed |
| SectionList.SectionPathInjective | src/components/SectionList.jsx:46 | different sections link to different pages |
| Routes.Match | src/App.jsx:20-30 | each fixed path selects its page iff it is that path; /section/ followed by one segment selects the section page, whose id is that segment |
| Routes.PrivateRoute | src/App.jsx:12-15 | the page renders iff the token is truthy, else a redirect to /login; an empty token counts as none |
| Routes.Resolve | src/App.jsx:19-31 | unmatched paths render nothing; open pages render; guarded pages go through the guard |
| Routes.OpenPagesNeverGuarded | src/App.jsx:21-22 | /login and /register render whatever the session holds |
| Routes.GuardedPaths | src/App.jsx:24-29 | /, /profile, /bin and /section/{id} render with a token and redirect to /login without one |
| Routes.OnlyPresenceMatters | src/App.jsx:12-15 | two tokens that agree on presence give the same result on every path |
| Routes.SectionLinkOpensSection | src/App.jsx:26-28 | a signed-in user following a section link gets that section's page, whose id parameter reads back as the section id |

## Left out

- The HTTP client and the session store (`api/axios`, `auth/AuthContext`) are not part of this model: requests are values and the session is the token passed to the guard; login, logout and token persistence are not modelled.
- Dashboard, SectionPage, Login, Register, PasswordList and Modal: fetch and navigation plumbing or presentation only.
- Loading the profile and the bin list on mount: fetch plumbing; the lists are inputs.
- The profile object sent by `updateProfile` may carry more fields than username and email; only those two are modelled.
- `setTimeout` message clearing, the change-password dialog closing after two seconds, clipboard copy, how an alert box is displayed (the alert itself is an effect), the console's output, framer-motion animation, the strength bar width (a float).
- Snake: score, high score (they read stale state from a closure), the status text, canvas drawing and the 90 ms interval; the food's respawn position is an input.
- `Math.random`: every draw is an argument; the sort with a random comparator is an arbitrary list of transpositions, with no claim of uniformity.
- Decimal.Show: ids are taken to be non-negative integers below 2^53, the range where a template literal writes the plain decimal numeral; the server's id type is not part of this model, and from 10^21 on JavaScript writes exponent form instead.
- Routes.Match: react-router's case-insensitive matching, optional trailing slash and URL decoding of the `:id` parameter are not modelled.
- Input field change handlers are plain field updates and are modelled only for the delete-code field.

## Findings

| source | as written | input that shows it | evidently intended | confidence | as-written member | corrected member |
|---|---|---|---|---|---|---|
| src/pages/Bin.jsx:32 | after the await, the list is set to the filter of the list captured when the handler started | bin holds entries 1 and 2; recover 1, then recover 2 before the first call returns; both succeed: entry 1 is back in the list although it was recovered | filter the list as it is when the call returns (a functional state update), so both entries leave | medium, not executed | Bin.StaleSnapshotResurrects | Bin.SettleRecover |
