# gatita in Dafny

gatita is a web app that matches Gachon University students who share a taxi
between four places on and around campus. A student signs up with a
university address in a six-step form and logs in. They pick a route (a
departure place and a destination) on the home page and browse the chat
rooms for that route on a chosen day. They join a room or open a room of
four, and change their nickname at most once every 14 days. An administrator
reviews reports, suspends users and reads the rooms' messages.

This project models the domain rules of those screens against an in-memory
stand-in for the hosted database. It proves what each rule guarantees.

- `types.dfy` (module `Types`): the records and enums of the data model. This
  covers users, rooms, participants, messages, reports and favorites. It also
  covers the four locations with their database values and display names, the
  university address domain and the departments.
- `store.dfy` (module `Store`): the database as a class.
  - It holds one `seq` per table and the next row id.
  - Each insert and update the screens perform is a method.
  - The integrity rules the database enforces are kept as `Valid()`. These
    are the primary keys (no two users, rooms or participant rows share an
    id), foreign keys, one participant row per (room, user), and fresh ids
    for new rows.
  - `.single()` is modelled as "a row is returned only when exactly one row
    matches".
  - Every write takes a `fault` flag standing for a refusal by the server.
- `rooms.dfy` (module `Rooms`): the room list of a route and day, and the
  three date options. It also covers the split into "my rooms", upcoming
  rooms and departed rooms, joining a room, and creating one.
- `signup.dfy`, `login.dfy`, `reset_password.dfy`: the signup, login and
  password-reset forms as classes. Each has the form's fields and error map,
  its validators and the ordered steps of its submit handler. The identity
  provider's answer is a parameter.
- `settings.dfy` (module `Settings`): the 14-day nickname cooldown and the
  ordered checks of a nickname save.
- `admin.dfy` (module `Admin`): the administrator dashboard. It covers
  authorisation, the four list orderings, the user search, the report
  actions, the status toggle and the message viewer.
- `home.dfy` (module `Home`): the home page. It covers the session check,
  the route search, favorites and logout. It also covers the link to the
  room list and how the room list reads the route back from it.
- `wrappers.dfy`, `seqs.dfy`, `text.dfy`: `Option`, and a filter and a stable
  insertion sort with their proved properties. Also the JavaScript string
  operations the screens use: `trim` over the JavaScript whitespace set,
  `includes`, `endsWith`, `indexOf`, ASCII `toLowerCase`, and the
  code-unit-wise string `<`.

How the source's own values are represented:

- Time is an integer. Days are whole-day numbers, instants are milliseconds,
  and departure times stay `HH:mm` strings compared as strings, as the page
  compares them.
- Ids are naturals handed out by the store.

Where the code and its written description disagree, the model follows the
code:
- A room stays stored when inserting its creator as a participant fails
  (`Rooms.HandleCreateRoom`).
- The report handler accepts any target status (`Admin.AdminDashboard.HandleReportStatusChange`,
  `Admin.ReportHandlerSkipsTransitionCheck`).
- The room selector loads the previously selected room's messages
  (`Admin.AdminDashboard.SelectRoom`); the intended behaviour is modelled
  beside it (`Admin.AdminDashboard.SelectRoomCorrected`, see Findings).
- The nickname length is measured before trimming, so a one-character
  nickname can be saved (`Settings.SavedNicknameLength`).

## Model

| member | source | states |
|---|---|---|
| Types.ParseLocationKey | supabase_client.ts:82-86 | a string is read as a location only when it is that location's database value |
| Types.ParseLocationKeyRoundTrip | supabase_client.ts:82-86 | every location's database value reads back as that location |
| Types.AllLocationsComplete | supabase_client.ts:82-94 | the location list holds every one of the four locations |
| Types.LocationNameInjective | supabase_client.ts:89-94 | distinct locations have distinct display names |
| Text.EndsWithIff | components/auth/SignupForm.tsx:92 | `endsWith(t)` holds exactly when the string is some prefix followed by `t` |
| Text.IndexOf | app/rooms/page.tsx:22-23 | `indexOf` is -1 exactly when the character is absent; otherwise it gives its first position |
| Text.ContainsEmpty | app/admin/page.ts:210-214 | every string includes the empty string |
| Text.ToLowerIdempotent | app/admin/page.ts:210-214 | lower-casing twice is lower-casing once |
| Text.TrimSpec | app/settings/page.tsx:70 | `trim` returns a slice of the input with only whitespace cut at both ends, and the result neither starts nor ends with whitespace |
| Text.TrimEmptyIff | app/settings/page.tsx:70 | the trimmed string is empty exactly when the input is all whitespace |
| Text.TrimKeepsTrimmed | app/settings/page.tsx:105 | trimming a trimmed string changes nothing |
| Text.LexLeTotalPreorder | app/rooms/page.tsx:148 | string comparison is a total preorder |
| Store.ProfileOf | components/auth/LoginForm.tsx:65-69 | a profile is returned exactly when one row has the asked-for id, and it is a stored row with that id; none when no row or several rows have it |
| Store.StatusChangeTouchesOnlyStatus | app/admin/page.ts:158-161 | a user status change sets the status of the row with the id; every other column of that row (id, email, name, phone, nickname and its date, department, role, dates) and every other row stay as they were |
| Store.ReportStatusChangeTouchesOnlyStatus | app/admin/page.ts:175-178 | a report status change sets the status of the report with the id; its room, reporter, reported user, reason and date, and every other report, stay as they were |
| Store.Store.InsertRoom | app/rooms/page.tsx:453-467 | a refused insert changes nothing; a room whose creator is unknown is refused; otherwise the room row is appended with the next id and the integrity rules still hold |
| Store.Store.InsertParticipant | app/rooms/page.tsx:171-186 | a second row for the same (room, user) is refused as a uniqueness violation; otherwise exactly one row is appended |
| Store.Store.InsertUser | components/auth/SignupForm.tsx:209-222 | a profile row whose id exists is refused; otherwise exactly that row is appended |
| Store.Store.UpdateNickname | app/settings/page.tsx:102-110 | the update reports an error exactly when refused; the table becomes WithNickname, or stays the same |
| Store.Store.UpdateUserStatus | app/admin/page.ts:158-163 | the update reports an error exactly when refused; the table becomes WithUserStatus, or stays the same |
| Store.Store.UpdateReportStatus | app/admin/page.ts:175-180 | the update reports an error exactly when refused; the table becomes WithReportStatus, or stays the same |
| Rooms.ListRoomsSpec | app/rooms/page.tsx:61-79 | the list holds exactly the active rooms of the route and selected day, each with its participants, in ascending departure time, and is a permutation of the matching rooms |
| Rooms.GetDateOptions | app/rooms/page.tsx:115-132 | three options: yesterday, today and tomorrow, labelled 어제, 오늘 and 내일, in that order |
| Rooms.SeparateRooms | app/rooms/page.tsx:134-156 | the loop's three lists are the three sections of the input, each in input order |
| Rooms.SectionStep | app/rooms/page.tsx:143-153 | appending a room adds it to its own section only |
| Rooms.CategoriesPartition | app/rooms/page.tsx:143-153 | for each room, its occurrences across the three sections add up to its occurrences in the list |
| Rooms.SectionsPartition | app/rooms/page.tsx:139-155 | the three sections together are a permutation of the input: every room goes to exactly one |
| Rooms.ParticipantRoomIsMine | app/rooms/page.tsx:144-147 | a room the user is in goes to "my rooms" and to no other section, whatever its date and time |
| Rooms.OtherRoomSection | app/rooms/page.tsx:148-152 | any other room is departed exactly when the day is today and its time is before the current time; otherwise it is upcoming |
| Rooms.NoDepartedUnlessToday | app/rooms/page.tsx:137-148 | on any day but today no room is departed |
| Rooms.FindRoom | app/rooms/page.tsx:162-163 | `find` returns nothing exactly when no listed room has the id; otherwise it returns a listed room with that id |
| Rooms.HandleJoinRoom | app/rooms/page.tsx:158-193 | nothing exactly when there is no user or the room is not listed. A room at capacity (the same condition that disables the card's button, line 407) is reported full and nothing is inserted. A duplicate is reported as already joined, distinct from the generic failure, which is exactly a transient or foreign-key refusal. A join appends one unconfirmed row for (room, user). A room within capacity in the store stays within it |
| Rooms.NoRowsForFreshRoom | app/rooms/page.tsx:453-478 | a room id not yet handed out has no participant rows |
| Rooms.RowsAfterAppend | app/rooms/page.tsx:470-476 | appending a participant row adds it to its room's rows only |
| Rooms.NoPairWithoutRows | app/rooms/page.tsx:470-476 | a room without rows has no participant at all |
| Rooms.InsertCreator | app/rooms/page.tsx:470-478 | the creator becomes the fresh room's only participant, confirmed, unless the store refuses |
| Rooms.HandleCreateRoom | app/rooms/page.tsx:445-484 | nothing exactly when there is no departure time or no user. Otherwise a room of capacity 4, created by the user and titled `"<time> <from>→<to>"`, is stored, then the creator as its one confirmed participant. Every refused insert is a failure (the catch's message), and a refused creator insert leaves the room stored without participants |
| Signup.PhoneMatchesIff | components/auth/SignupForm.tsx:97-98 | the phone pattern holds exactly for `010-`, four digits, `-`, four digits |
| Signup.ValidateStep | components/auth/SignupForm.tsx:85-88 | an empty value of a required step gets that step's "please enter" message |
| Signup.ValidateStepAccepts | components/auth/SignupForm.tsx:85-114 | the validator accepts exactly: a university address, the phone pattern, a nickname of 2 to 10 characters, a password of at least 8, and a non-empty name or department |
| Signup.SignupForm.constructor | components/auth/SignupForm.tsx:76-79 | the form starts on the first step with no values and no errors |
| Signup.SignupForm.NextDisabled | components/auth/SignupForm.tsx:326 | a disabled Next button means the validator would reject the value |
| Signup.SignupForm.HandleInputChange | components/auth/SignupForm.tsx:239-253 | the value is stored under the current step's id; only that field's error is removed |
| Signup.SignupForm.Back | components/auth/SignupForm.tsx:266 | one step back, except on the first step; the step stays in range |
| Signup.SignupForm.HandleNext | components/auth/SignupForm.tsx:116-185 | an invalid value, a taken email or a taken nickname is rejected with its message and the step stays; a valid value that is not taken is never rejected. Otherwise errors clear and the step advances, or the last step signs up. Every passed step holds an accepted value, and the step stays in 0..5 |
| Signup.SignupForm.CheckTaken | components/auth/SignupForm.tsx:125-176 | email step: taken exactly when the provider's user list or exactly one profile row has it, and neither is checked when the call throws (`None`); a refused call returns an empty list (`Some([])`), so only the profile table is checked. Nickname step: taken exactly when one profile row has it |
| Signup.SignupForm.HandleSignup | components/auth/SignupForm.tsx:187-237 | a rejection shows the provider's message, or the generic one when it is empty. With a user the signup succeeds and the profile row is inserted unless refused, so success does not depend on the profile insert |
| Signup.StepsAcceptedExtend | components/auth/SignupForm.tsx:180-184 | passing the current step extends the accepted prefix by one |
| Signup.CompletedProfileIsWellFormed | components/auth/SignupForm.tsx:209-220 | the profile made from a completed form has a university address, a well-formed phone number, a 2-10 character nickname, and a name and department |
| Login.LoginErrors | components/auth/LoginForm.tsx:25-35 | the email gets an error exactly when it is not a university address (its own message when empty); the password independently exactly when empty |
| Login.LoginForm.constructor | components/auth/LoginForm.tsx:14-18 | the form starts with empty fields, no errors and no session |
| Login.LoginForm.SubmitDisabled | components/auth/LoginForm.tsx:189 | a disabled submit means the checks would fail |
| Login.LoginForm.HandleLogin | components/auth/LoginForm.tsx:21-86 | any field error: all errors are shown and there is no sign-in. A wrong-credentials answer becomes a password error; any other error a generic failure. A signed-in user without a profile row is signed out and `onSuccess` is not called; with one, login succeeds |
| Login.LoginForm.HandleInputChange | components/auth/LoginForm.tsx:88-102 | the field takes the value and only that field's error is removed |
| Login.LoginChecksPass | components/auth/LoginForm.tsx:27-37 | a university address with a password passes the checks |
| ResetPassword.PasswordErrors | app/reset-password/page.tsx:46-60 | the password gets an error exactly when shorter than 8 (its own message when empty); the confirmation independently exactly when empty or different |
| ResetPassword.PasswordErrorsEmptyIff | app/reset-password/page.tsx:61-62 | no errors exactly when the password has at least 8 characters and is repeated |
| ResetPassword.ResetPasswordPage.constructor | app/reset-password/page.tsx:12-18 | the page starts with empty fields and no errors |
| ResetPassword.ResetPasswordPage.ValidatePasswords | app/reset-password/page.tsx:46-63 | the page shows exactly those errors and returns true exactly when there are none |
| ResetPassword.ResetPasswordPage.HandleResetPassword | app/reset-password/page.tsx:65-92 | the update is attempted only after the validation passes; the password counts as updated exactly when it passes and the provider accepts |
| ResetPassword.ResetPasswordPage.HandleInputChange | app/reset-password/page.tsx:94-109 | the field takes the value and only that field's error is removed |
| ResetPassword.ResetPasswordPage.SubmitDisabled | app/reset-password/page.tsx:226 | a disabled submit means the validation would fail |
| ResetPassword.FirstBarIsLengthRule | app/reset-password/page.tsx:211 | the first bar is lit exactly when the length check passes |
| ResetPassword.LaterBarsNeedFirst | app/reset-password/page.tsx:211-213 | the second and third bars light only when the first does |
| ResetPassword.ThirdBarWithoutSecond | app/reset-password/page.tsx:212-213 | a 12-character password with a digit and a symbol but no capital lights the third bar without the second |
| ResetPassword.StrengthLabelMeaning | app/reset-password/page.tsx:216-218 | the label prompts exactly below 8 characters; "강함" exactly for 10 or more characters with a capital and a digit; "보통" otherwise |
| ResetPassword.AllBarsReadStrong | app/reset-password/page.tsx:212-218 | a password lighting the second and third bars reads "강함" |
| Settings.NextChangeDate | app/settings/page.tsx:60-67 | none exactly when the nickname was never changed |
| Settings.CanChangeIffNextDateReached | app/settings/page.tsx:51-67 | a change is allowed exactly when there is no next-change date or it has been reached |
| Settings.CooldownBoundary | app/settings/page.tsx:54-57 | exactly 14 days after a change the next is allowed; a millisecond earlier it is not |
| Settings.CanChangeStaysAllowed | app/settings/page.tsx:51-58 | once allowed, a change stays allowed |
| Settings.SaveDecisionSpec | app/settings/page.tsx:69-110 | a save is written exactly when there is a user, the input is not blank, its untrimmed length is 2-10, it differs from the current nickname, no other user holds its trimmed form, and the store accepts. The blank, bad-length and taken cases are each characterised too |
| Settings.SettingsPage.constructor | app/settings/page.tsx:12-17 | the input starts from the current nickname, not editing, with no error |
| Settings.SettingsPage.ClickEdit | app/settings/page.tsx:294-295 | the editor opens exactly when the cooldown allows a change |
| Settings.SettingsPage.TypeNickname | app/settings/page.tsx:239-245 | the input keeps at most 10 characters of what was typed and the error is cleared |
| Settings.SettingsPage.Cancel | app/settings/page.tsx:272-274 | the editor closes and the input gets the current nickname back |
| Settings.SettingsPage.SaveDisabled | app/settings/page.tsx:254-256 | a disabled save button means `handleNicknameChange` would do nothing (the blank-input outcome, whatever the table and the store's answer); with a user loaded, an enabled one means the save gets past that first check |
| Settings.SettingsPage.HandleNicknameChange | app/settings/page.tsx:69-127 | the outcome is the save decision. Nothing is written unless saved. A save writes the trimmed nickname stamped with now to the user's row and to the page, and closes the editor. The error message matches the outcome. The cooldown is not re-checked |
| Settings.SettingsPage.WriteNickname | app/settings/page.tsx:101-119 | a refused update changes nothing; otherwise the row and the page's copy get the trimmed nickname and the timestamp, and the editor closes |
| Settings.SaveTouchesOnlyNickname | app/settings/page.tsx:102-108 | a save changes only the nickname and its timestamp, and only on the user's row |
| Settings.SavedNicknameLength | app/settings/page.tsx:70-76 | a saved nickname has 1 to 10 characters |
| Settings.PaddedSingleCharacterPasses | app/settings/page.tsx:70-76 | " a" passes the length check and is saved as "a" |
| Admin.UnconfiguredEmailMeansFlagOnly | app/admin/page.ts:64 | with no administrator email configured, only the administrator flag authorises |
| Admin.EitherRouteAuthorizes | app/admin/page.ts:64-69 | the administrator flag authorises, and so does the configured email |
| Admin.UserListSpec | app/admin/page.ts:102-106 | the user list is a permutation of the users, newest first |
| Admin.ReportListSpec | app/admin/page.ts:111-120 | the report list is a permutation of the reports, newest first |
| Admin.RoomListSpec | app/admin/page.ts:125-136 | the room list holds every room with its participants, newest first |
| Admin.MessageListSpec | app/admin/page.ts:141-151 | the message list holds exactly the chosen room's messages, oldest first |
| Admin.FilteredUsersSpec | app/admin/page.ts:210-214 | a user is kept exactly when the lower-cased term occurs in the lower-cased nickname, email or department |
| Admin.EmptySearchShowsAll | app/admin/page.ts:210-214 | an empty term keeps every user |
| Admin.SearchIgnoresCase | app/admin/page.ts:210-214 | searching for the lower-cased term finds the same users |
| Admin.ReportActionsAdvanceOneStage | app/admin/page.ts:302-317 | a report card offers exactly the next stage: pending to reviewed, reviewed to resolved, nothing after resolved |
| Admin.ToggleIsInvolution | app/admin/page.ts:399-402 | the toggle asks for the other status, and toggling twice gives the original |
| Admin.ReportHandlerSkipsTransitionCheck | app/admin/page.ts:173-178 | the table HandleReportStatusChange writes for a resolved report asked to become reviewed has that report reviewed, one stage back, a move the resolved report's buttons never offer |
| Admin.StaleRoomSelection | app/admin/page.ts:478-484 | as written, choosing a room shows the previously chosen room's messages, or none |
| Admin.SelectShowsChosenRoom | app/admin/page.ts:478-484 | as intended, choosing a room shows exactly its messages, oldest first |
| Admin.AdminDashboard.constructor | app/admin/page.ts:16-29 | the page starts loading, on the reports tab, unauthorised, with empty lists |
| Admin.AdminDashboard.CheckAuthAndLoadData | app/admin/page.ts:45-77 | no account: home. A profile is recorded and is authorised exactly by the flag or the configured email, otherwise sent home. An account without a profile row stays unauthorised |
| Admin.AdminDashboard.LoadTabData | app/admin/page.ts:79-100 | only the active tab's list is reloaded; messages only with a room selected |
| Admin.AdminDashboard.Open | app/admin/page.ts:35-77 | the page is authorised exactly for a profile that passes the check; only then is the active tab's list loaded (messages only with a room selected); loading ends, the profile is recorded, and the page goes home without an account or with an unauthorised profile |
| Admin.AdminDashboard.SelectTab | app/admin/page.ts:39-43 | switching to another tab of an authorised page loads that tab's list and nothing else |
| Admin.AdminDashboard.ViewRoomMessages | app/admin/page.ts:446-450 | the room is selected, the messages tab opens, and its messages are loaded |
| Admin.AdminDashboard.SelectRoom | app/admin/page.ts:478-484 | as written: the selection is recorded, and the messages become those of the previously selected room when there was one and a room is chosen; otherwise they stay |
| Admin.AdminDashboard.SelectRoomCorrected | app/admin/page.ts:478-484 | as intended: the selection is recorded and the chosen room's messages are shown |
| Admin.AdminDashboard.HandleUserStatusChange | app/admin/page.ts:156-171 | an accepted update sets the status of that user's row only and reloads the users; a refused one changes nothing; the notice matches, and says "suspended" exactly when the status asked for is Suspended |
| Admin.AdminDashboard.ToggleUserStatus | app/admin/page.ts:399-402 | the user's row gets the other status, and the success notice names that status |
| Admin.AdminDashboard.HandleReportStatusChange | app/admin/page.ts:173-188 | an accepted update sets the status of that report's row only and reloads the reports, whatever status the row had before; a refused one changes nothing |
| Admin.AdminDashboard.ClickReportAction | app/admin/page.ts:302-317 | a report moves exactly one stage forward |
| Home.QueryAfterPath | app/rooms/page.tsx:22-23 | the query of a URL is what follows a path without `?` |
| Home.ParamBeforeOthers | app/rooms/page.tsx:22-23 | a parameter's value runs to the next `&` |
| Home.LastParam | app/rooms/page.tsx:22-23 | the last parameter's value runs to the end |
| Home.ParamSkipped | app/rooms/page.tsx:22-23 | a parameter of another name is skipped |
| Home.RouteQueryParams | app/page.tsx:95 | both route parameters of the link read back when neither value holds `&` |
| Home.KeyHasNoAmpersand | supabase_client.ts:82-86 | no location's database value holds `&` |
| Home.RoomsUrlRoundTrip | app/page.tsx:95 | the room list reads back exactly the route the link was built from |
| Home.HandleSearch | app/page.tsx:84-96 | an error exactly when a location is missing or both are the same, the missing check first; otherwise it navigates to a link that reads back as the route |
| Home.HandleFavoriteClick | app/page.tsx:98-100 | always navigates, to the favorite's route |
| Home.FavoriteSkipsSameLocationCheck | app/page.tsx:90-100 | a favorite from a place to itself navigates, while the same search is refused |
| Home.FavoriteListSpec | app/page.tsx:70-82 | the favorites are exactly the user's, newest first |
| Home.HomePage.constructor | app/page.tsx:19-25 | the page starts loading, with no user, no form, no route and no favorites |
| Home.HomePage.CheckAuth | app/page.tsx:45-68 | a session with a profile shows it and loads its favorites; a session without one is signed out |
| Home.HomePage.OnSignedIn | app/page.tsx:32-35 | the event's session becomes current and is checked: an account with a profile shows that profile and its favorites; an account without one is signed out, leaving the user and favorites as they were; either way loading ends and the login or signup form closes |
| Home.HomePage.OnSignedOut | app/page.tsx:36-39 | the user and the favorites are cleared |
| Home.HomePage.HandleLogout | app/page.tsx:102-111 | a sign-out clears the session, the user and the favorites; a failed one changes nothing; the notice matches |
| Home.HomePage.ChooseAuthMode | app/page.tsx:175-178 | the login or signup button opens its form |
| Home.HomePage.ChooseFrom | app/page.tsx:218 | the departure selector sets the departure place |
| Home.HomePage.ChooseTo | app/page.tsx:225 | the destination selector sets the destination |
| Home.HomePage.SearchDisabled | app/page.tsx:230 | a disabled search button means the search would report the missing location |
| Home.AdminButtonMeansAuthorized | app/page.tsx:200 | whoever is shown the administrator button is authorised on the dashboard |
| Home.EmailAdminSeesNoButton | app/page.tsx:200 | a page whose signed-in profile is authorised only by the configured email does not show the button |

## Left out

- Leaving a room, confirming participation, the chat room screen, realtime subscriptions and filing reports: their code is not part of this model.
- `addToFavorites` on the room list (app/rooms/page.tsx:89-113) is not modelled; favorites are only read and followed.
- The race between the capacity check and the insert when several clients join at once: the model is one client acting sequentially.
- Calendar and time zones: days and instants are integers, so `setDate`, date formatting and the difference between local and UTC dates are not modelled.
- Lengths count characters, not UTF-16 code units; lower-casing and whitespace follow ASCII and the JavaScript whitespace set, without full Unicode case mapping.
- Toasts, navigation and rendering: a notice or a navigation target is an output value; whether a toast is shown is not.
- The identity provider (`getSession`, `getUser`, `signUp`, `signInWithPassword`, `signOut`, `updateUser`, `admin.listUsers`, `setSession`) is a parameter or a flag, not modelled.
- The password-reset page's session setup from the link's tokens is not modelled.
- Read queries never fail in the model, and exceptions thrown from them are not modelled; writes can be refused through a `fault` flag.
- The database defaults (a profile's timestamps, a room's status) are filled in by the store methods.
- Rows the database sorts with equal keys keep their stored order, as the stable insertion sort does; the database does not promise that order.
- The display-only joined fields (creator, reporter, reported user, room title, message author) are not stored on the rows.
- Percent-encoding of the link: the four location values travel as written.
- Home.RouteOf checks that each parameter is one of the four location values, where the room list only casts it; for links built by `RoomsUrl` the two coincide.
- `loadFavorites` is not awaited on the home page; the model applies it at once.
- The loading flags and `isSaving` that disable buttons during a request: the model has no concurrent requests in flight.
- Settings.SettingsPage.SaveDisabled: only the blank-input half of `disabled={isSaving || !newNickname.trim()}`; `isSaving` is left out for the same reason.
- `handleFindClick` on the home page only shows a message and is not modelled.
- Service worker, push notifications, installation and animation code: browser plumbing, not domain rules.

## Findings

| source | as written | input that shows it | evidently intended | confidence | as-written member | corrected member |
|---|---|---|---|---|---|---|
| app/admin/page.ts:479-483 | the room selector's handler sets the selected room and calls `loadMessages` in the same event; `loadMessages` reads the selection of the previous render | messages of rooms 7 and 3; no room selected; choose room 7: nothing is shown (with room 3 selected before, room 3's message is shown) | choosing a room shows that room's messages | not executed | Admin.AdminDashboard.SelectRoom, Admin.StaleRoomSelection | Admin.AdminDashboard.SelectRoomCorrected, Admin.SelectShowsChosenRoom |
